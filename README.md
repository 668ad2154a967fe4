# Verified model of the text-handling core of a collection of LLM demo scripts

The repository is a set of small Python scripts built around LangChain, CrewAI and n8n. Most
of their code is framework wiring. This project models the parts that compute something
definite, and proves what they promise:

- **Markdown code-fence extraction** (`CodeBlockParser` in `langchain_output_parser/output_parser.py`).
  - The regular expression ```` ```(?:\w+)?\s*\n(.*?)``` ```` is modelled with `re.DOTALL` and
    leftmost search, in the backtracking order Python's engine uses.
  - The model is proved sound and complete against a declarative description of a match.
  - `strip()` is applied to the group.
  - Module `CodeBlockParser`.
- **PR-review prompt builder** (`DevOps-GitHub-PR-Reviewer/devops-pr-review-prompt.py`).
  - The `diffs +=` loop, fence neutralisation in patches, the prompt template and its `strip()`.
  - The n8n item-flattening loop and the single output item.
  - Module `PrReviewPrompt`, with JSON values as a datatype and Python's `AttributeError` as an outcome.
- **Retrieval memory and preference store** (`langchain_memory/memory_patterns.py`).
  - Dot-product scoring.
  - A stable sort by descending score and the top-k slice.
  - The lazily filled embedding cache.
  - The insertion-ordered preference dictionary with its formatter.
  - Module `MemoryPatterns`: classes `PolicyMemory` and `PreferenceStore`.
- **Short-term chat window** (`langchain_memory/short_term_memory.py`).
  - `run_chat` appends to the caller's list, rebinds it to the last 20 messages when it grows
    too long, and appends the reply. The caller's list object is a `MessageList` instance, so the
    aliasing is modelled too.
  - The driver loop is also modelled.
  - Module `ShortTermMemory`, with messages in module `Messages`.
- **Persistent session store** (`langchain_memory/persistent_memory.py`).
  - The JSON file is a `Store` value: whether the file exists, plus a map from session id to messages.
  - Module `PersistentMemory`, class `SessionStore`.
- **Linux performance tools** (`crewai/linux_performance_debug.py` and `crewai/linux-performance2.py`).
  - Each tool's report is built from command output and `/proc` contents, which are inputs to the model.
  - The CPU-line selection, the `PID ` process-table window, the `loop` filter over disk lines and
    the network fallback are all modelled.
  - Every exception becomes an `"Error collecting …"` reply.
  - The CPU, memory, disk and network tools of `linux-performance2.py` format their replies exactly
    as those of `linux_performance_debug.py`, so the same members model both.
  - Modules `LinuxPerformanceDebug` and `LinuxPerformance2`.

Shared helpers live in two modules.

- `Base` holds `Option`, `Result`, `Min`, the `[-n:]` slice as `Keep`, and list-comprehension filters and `zip`.
- `Text` holds Python string operations on ASCII: `isspace`, `strip`, `split`, `join`, `splitlines`,
  `readlines` and `replace("```", "'''")`.

## Model

| member | source | states |
|---|---|---|
| Base.Keep | langchain_memory/short_term_memory.py:40-41 | for a positive bound n, `if len(xs) > n: xs = xs[-n:]` leaves min(n, len) elements, a suffix of xs, so it keeps the newest entries in order |
| Base.Filter | crewai/linux_performance_debug.py:33 | a comprehension with a condition keeps only elements that pass it, and never lengthens the list |
| Base.FilterFirst | crewai/linux_performance_debug.py:33-36 | the first element of the filtered list is the first element of the input that passes |
| Base.FilterEmpty | crewai/linux_performance_debug.py:35-38 | the filtered list is empty exactly when no element passes |
| Base.FilterAppend | crewai/linux_performance_debug.py:91-92 | filtering distributes over concatenation |
| Base.Zip | langchain_memory/memory_patterns.py:47 | `zip` pairs the i-th elements and stops at the shorter list |
| Text.LStripShape | langchain_output_parser/output_parser.py:111 | lstrip removes exactly the leading ASCII whitespace |
| Text.RStripShape | langchain_output_parser/output_parser.py:111 | rstrip removes exactly the trailing ASCII whitespace |
| Text.Strip | langchain_output_parser/output_parser.py:111 | a non-empty stripped text starts and ends with a non-whitespace character |
| Text.StripShape | langchain_output_parser/output_parser.py:111 | the stripped text is a contiguous slice of the input, and everything removed before and after it is whitespace |
| Text.StripKeepsNoFence | langchain_output_parser/output_parser.py:109-111 | stripping a text without a triple backtick cannot create one |
| Text.StripNewlineFrame | DevOps-GitHub-PR-Reviewer/devops-pr-review-prompt.py:18-32 | a text that neither starts nor ends with whitespace, framed by a line break on each side, strips back to itself |
| Text.StripAfterSpace | langchain_output_parser/output_parser.py:111 | whitespace added in front of a text does not change its strip |
| Text.IndexOf | crewai/linux_performance_debug.py:32 | the found index holds the separator, and the separator does not occur before it |
| Text.Split | crewai/linux_performance_debug.py:32 | `split('\n')` gives at least one piece, none containing the separator |
| Text.JoinSnoc | langchain_memory/memory_patterns.py:86 | joining one more element adds the separator and that element at the end |
| Text.SplitJoin | crewai/linux-performance2.py:81 | splitting a `'\n'`-join of newline-free lines gives the lines back |
| Text.IndexOfIs | crewai/linux-performance2.py:81 | the first separator of a text is found at its index |
| Text.JoinSplit | crewai/linux_performance_debug.py:32 | joining the pieces of a split with the separator gives the text back |
| Text.SplitLines | crewai/linux-performance2.py:64 | `splitlines()` is empty exactly for the empty text, and its lines contain no line break |
| Text.SplitLinesJoin | crewai/linux-performance2.py:64 | for a text without a trailing line break, joining the lines with `'\n'` restores the text |
| Text.ReadLines | crewai/linux_performance_debug.py:92 | every line `readlines()` returns is non-empty |
| Text.ConcatAppend | crewai/linux_performance_debug.py:93 | `"".join` distributes over concatenation |
| Text.ConcatReadLines | crewai/linux_performance_debug.py:92-93 | concatenating the lines `readlines()` returns gives the file text back |
| Text.ReadLinesShape | crewai/linux_performance_debug.py:92 | a `readlines()` line has no line break except at its end, and every line but the last ends with one |
| Text.ReplaceFences | DevOps-GitHub-PR-Reviewer/devops-pr-review-prompt.py:11 | replacing a triple backtick by `'''` keeps the length of the patch |
| Text.ReplaceFencesRemovesFences | DevOps-GitHub-PR-Reviewer/devops-pr-review-prompt.py:11 | the patch after replacement contains no triple backtick |
| Text.ReplaceFencesIdentity | DevOps-GitHub-PR-Reviewer/devops-pr-review-prompt.py:11 | a patch without a triple backtick is left as it is |
| CodeBlockParser.WordCharIsNotSpace | langchain_output_parser/output_parser.py:109 | no character is in both `\w` and `\s` |
| CodeBlockParser.WordRunEnd | langchain_output_parser/output_parser.py:109 | greedy `\w+` stops in range, at a character that is not a word character |
| CodeBlockParser.WordRunShape | langchain_output_parser/output_parser.py:109 | every character of the greedy `\w` run is a word character |
| CodeBlockParser.WordRunIs | langchain_output_parser/output_parser.py:109 | the greedy run ends at the first non-word character |
| CodeBlockParser.SpaceRunEnd | langchain_output_parser/output_parser.py:109 | greedy `\s*` stops in range, at a non-space character |
| CodeBlockParser.SpaceRunShape | langchain_output_parser/output_parser.py:109 | every character of the greedy `\s` run is whitespace |
| CodeBlockParser.LastNewline | langchain_output_parser/output_parser.py:109 | backtracking `\s*` to a `\n` finds a line break in the run |
| CodeBlockParser.LastNewlineShape | langchain_output_parser/output_parser.py:109 | backtracking finds the last line break in the run, or there is none |
| CodeBlockParser.NextFence | langchain_output_parser/output_parser.py:109 | the lazy `(.*?)` ends at a triple backtick at or after its start |
| CodeBlockParser.NextFenceShape | langchain_output_parser/output_parser.py:109 | the lazy group ends at the first closing fence, or no fence follows |
| CodeBlockParser.NextFenceIs | langchain_output_parser/output_parser.py:109 | a fence with none before it is the one the lazy group stops at |
| CodeBlockParser.MatchAt | langchain_output_parser/output_parser.py:109 | a match at a position has its group after the opening fence and the closing fence inside the text |
| CodeBlockParser.MatchAtSound | langchain_output_parser/output_parser.py:109 | the match the backtracking order finds satisfies the pattern, with the greedy tag, the last line break of the whitespace run and the first closing fence |
| CodeBlockParser.MatchAtComplete | langchain_output_parser/output_parser.py:109 | whenever the pattern can match at a position, the backtracking order finds a match there whose line break is no earlier |
| CodeBlockParser.Search | langchain_output_parser/output_parser.py:109 | `re.search` returns the leftmost position with a match, or no match when none exists |
| CodeBlockParser.Extract | langchain_output_parser/output_parser.py:109-112 | definition: `{None, None}` when the search finds no match; otherwise `match.group(1).strip()` as the code and `"unknown"` as the language |
| CodeBlockParser.Invoke | langchain_output_parser/output_parser.py:104-112 | reads `content`, otherwise `str(message)`. `code` is None exactly when `language` is None; a found language is always `"unknown"`; code has no fence and no whitespace at either end |
| CodeBlockParser.Parse | langchain_output_parser/output_parser.py:114-115 | `parse(t)` is `invoke` on a message whose content is t |
| CodeBlockParser.ExtractNoneIffNoMatch | langchain_output_parser/output_parser.py:109-112 | the result is `{None, None}` exactly when the pattern matches nowhere |
| CodeBlockParser.ExtractIsLeftmostMatch | langchain_output_parser/output_parser.py:109-111 | the code is the stripped group of the leftmost match, with the greedy tag and the lazy body |
| CodeBlockParser.ExtractedCodeHasNoFence | langchain_output_parser/output_parser.py:109-111 | the extracted code never contains a triple backtick |
| CodeBlockParser.NoFenceOrNoNewlineMeansNoCode | langchain_output_parser/output_parser.py:109-112 | a text without a triple backtick, or without a line break, gives no code |
| CodeBlockParser.Layout | langchain_output_parser/output_parser.py:109 | a prefix, a fence, a tag, a line break, a body and a fence are laid out at the expected offsets |
| CodeBlockParser.NoMatchInsidePrefix | langchain_output_parser/output_parser.py:109 | no match starts inside a prefix without fences |
| CodeBlockParser.NoFenceBeforeClosing | langchain_output_parser/output_parser.py:109 | no fence starts between the opening line break and the closing fence |
| CodeBlockParser.OpeningFenceMatch | langchain_output_parser/output_parser.py:109 | the opening fence matches, with the group ending at the closing fence |
| CodeBlockParser.OpeningSteps | langchain_output_parser/output_parser.py:109 | tag, line break and closing fence are found in the order the engine tries them |
| CodeBlockParser.TagIsWordRun | langchain_output_parser/output_parser.py:109 | a word-character tag is consumed entirely by `(?:\w+)?` |
| CodeBlockParser.NewlineEndsTag | langchain_output_parser/output_parser.py:109 | the line break that `\s*\n` settles on lies between the tag and the body |
| CodeBlockParser.ClosingFenceFollows | langchain_output_parser/output_parser.py:109 | the first fence after that line break is the closing fence |
| CodeBlockParser.MatchAtIs | langchain_output_parser/output_parser.py:109 | a fence, a tag run, a line break and a closing fence make the match at that position |
| CodeBlockParser.GroupStripsToBody | langchain_output_parser/output_parser.py:111 | the stripped group equals the stripped body, whatever whitespace the tag line carries |
| CodeBlockParser.ExtractReportsSearch | langchain_output_parser/output_parser.py:109-112 | the extracted code is the stripped group of the match the search found |
| CodeBlockParser.SearchFindsFirstMatch | langchain_output_parser/output_parser.py:109 | the search returns a match with no match before it |
| CodeBlockParser.FirstMatchIsExtracted | langchain_output_parser/output_parser.py:109-111 | the first match's stripped group is the code, with language `"unknown"` |
| CodeBlockParser.NoMatchBeforeOpening | langchain_output_parser/output_parser.py:109 | nothing in a fence-free prefix starts a match |
| CodeBlockParser.LaidOutBlockGivesStrippedBody | langchain_output_parser/output_parser.py:109-111 | a laid-out block yields its stripped body |
| CodeBlockParser.FencedBlockGivesStrippedBody | langchain_output_parser/output_parser.py:109-111 | `P + "```" + lang + "\n" + B + "```"`, with P and B fence-free, every character of `lang` a `\w` character and B not ending in a backtick, gives `code == strip(B)` and language `"unknown"` |
| PrReviewPrompt.Get | DevOps-GitHub-PR-Reviewer/devops-pr-review-prompt.py:5-6 | `dict.get` finds a key exactly when the dictionary has it, and returns its value |
| PrReviewPrompt.Section | DevOps-GitHub-PR-Reviewer/devops-pr-review-prompt.py:4-16 | one file's section starts with `### File: name` and ends with `\n---\n\n`; it raises exactly when the file is not a dict or has a truthy patch that is not a string |
| PrReviewPrompt.Diffs | DevOps-GitHub-PR-Reviewer/devops-pr-review-prompt.py:2-16 | definition: `diffs` after the loop, starting from `""` and appending each file's section in order, or the error of the first file whose section raises |
| PrReviewPrompt.Prompt | DevOps-GitHub-PR-Reviewer/devops-pr-review-prompt.py:1-32 | definition: the f-string template around the diffs, stripped, or the diffs' error |
| PrReviewPrompt.BuildPrompt | DevOps-GitHub-PR-Reviewer/devops-pr-review-prompt.py:1-32 | the `diffs +=` loop and template give the prompt, or the first file's error |
| PrReviewPrompt.AppendSection | DevOps-GitHub-PR-Reviewer/devops-pr-review-prompt.py:5-16 | one loop pass appends that file's section to `diffs`, or raises its error |
| PrReviewPrompt.DiffsStep | DevOps-GitHub-PR-Reviewer/devops-pr-review-prompt.py:4-16 | one more file appends its section or stops with its error |
| PrReviewPrompt.DiffsKeepsError | DevOps-GitHub-PR-Reviewer/devops-pr-review-prompt.py:4-16 | the first error ends the loop: later files change nothing |
| PrReviewPrompt.DiffsFailIffSectionFails | DevOps-GitHub-PR-Reviewer/devops-pr-review-prompt.py:4-16 | the loop succeeds exactly when no file fails |
| PrReviewPrompt.DiffsSnoc | DevOps-GitHub-PR-Reviewer/devops-pr-review-prompt.py:4-16 | the diffs of one more file extend the diffs before it |
| PrReviewPrompt.SectionTexts | DevOps-GitHub-PR-Reviewer/devops-pr-review-prompt.py:4-16 | one section text per file, in input order |
| PrReviewPrompt.DiffsAreSections | DevOps-GitHub-PR-Reviewer/devops-pr-review-prompt.py:4-16 | the diffs are the concatenation of one section per file, in input order |
| PrReviewPrompt.MissingNameIsUnknownFile | DevOps-GitHub-PR-Reviewer/devops-pr-review-prompt.py:5 | a file without `filename` is shown as `unknown-file` |
| PrReviewPrompt.PatchSection | DevOps-GitHub-PR-Reviewer/devops-pr-review-prompt.py:10-12 | a truthy string patch is shown in a `diff` fence with every triple backtick replaced, so it holds no fence; a fence-free patch is unchanged |
| PrReviewPrompt.NoPatchSection | DevOps-GitHub-PR-Reviewer/devops-pr-review-prompt.py:13-14 | a missing, None or empty patch gives the fixed no-patch line |
| PrReviewPrompt.FramedShape | DevOps-GitHub-PR-Reviewer/devops-pr-review-prompt.py:18-31 | the framed diffs start with the opening sentence, end with the instructions and have no whitespace at either end |
| PrReviewPrompt.PromptText | DevOps-GitHub-PR-Reviewer/devops-pr-review-prompt.py:18-32 | the prompt exists exactly when the diffs do, and `strip()` removes only the template's outer line breaks |
| PrReviewPrompt.PromptShape | DevOps-GitHub-PR-Reviewer/devops-pr-review-prompt.py:18-32 | the prompt starts with "You are a senior DevOps engineer", ends with the instructions, and has no outer whitespace |
| PrReviewPrompt.EmptyPrompt | DevOps-GitHub-PR-Reviewer/devops-pr-review-prompt.py:18-32 | with no files the prompt is the opening immediately followed by the whole instruction block |
| PrReviewPrompt.Flatten | DevOps-GitHub-PR-Reviewer/devops-pr-review-prompt.py:37-45 | definition: each item's `json` value contributes itself (a dict with `filename`), its `body` list, or nothing, concatenated in item order; an item without `get` gives its error |
| PrReviewPrompt.FlattenItems | DevOps-GitHub-PR-Reviewer/devops-pr-review-prompt.py:37-45 | the `append`/`extend` loop builds the flattened file list, or the first item's error |
| PrReviewPrompt.FlattenKeepsError | DevOps-GitHub-PR-Reviewer/devops-pr-review-prompt.py:38-39 | once an item raises, the later items do not matter |
| PrReviewPrompt.FlattenAppend | DevOps-GitHub-PR-Reviewer/devops-pr-review-prompt.py:37-45 | flattening two batches in turn concatenates their files, in order |
| PrReviewPrompt.GatherAppend | DevOps-GitHub-PR-Reviewer/devops-pr-review-prompt.py:37-45 | gathering over a concatenation concatenates the gathered values |
| PrReviewPrompt.GatherSnoc | DevOps-GitHub-PR-Reviewer/devops-pr-review-prompt.py:38-45 | one more item adds what it contributes, or its error |
| PrReviewPrompt.ContributionCases | DevOps-GitHub-PR-Reviewer/devops-pr-review-prompt.py:42-45 | a dict with `filename` is appended whole even with a `body`; otherwise a list `body` is extended in; anything else adds nothing |
| PrReviewPrompt.Node | DevOps-GitHub-PR-Reviewer/devops-pr-review-prompt.py:37-50 | definition: flatten the items, build the prompt from the files, and return the single item `{"json": {"prompt": p}}`, or the first error |
| PrReviewPrompt.RunNode | DevOps-GitHub-PR-Reviewer/devops-pr-review-prompt.py:37-50 | the node returns exactly one item `{"json": {"prompt": p}}` whose prompt starts with the opening sentence |
| MemoryPatterns.Dot | langchain_memory/memory_patterns.py:50-51 | definition: `_dot`, the sum of the products of the components at equal positions, up to the shorter vector |
| MemoryPatterns.DotIsSumOverZip | langchain_memory/memory_patterns.py:50-51 | `_dot` is the sum of the products over `zip(a, b)` |
| MemoryPatterns.DotSymmetric | langchain_memory/memory_patterns.py:50-51 | `_dot(a, b) == _dot(b, a)` |
| MemoryPatterns.DotTruncates | langchain_memory/memory_patterns.py:50-51 | only the first min(len a, len b) components count |
| MemoryPatterns.ScoreAll | langchain_memory/memory_patterns.py:58 | one score per stored pair (the contract states the length); each entry's dot product and snippet are given by the definition |
| MemoryPatterns.Insert | langchain_memory/memory_patterns.py:59 | inserting one scored snippet lengthens the list by one |
| MemoryPatterns.SortDesc | langchain_memory/memory_patterns.py:59 | sorting keeps the length |
| MemoryPatterns.InsertPermutes | langchain_memory/memory_patterns.py:59 | insertion adds exactly the new element |
| MemoryPatterns.InsertSorted | langchain_memory/memory_patterns.py:59 | insertion keeps a list in non-increasing score order |
| MemoryPatterns.InsertTies | langchain_memory/memory_patterns.py:59 | the new element goes before the elements of its score already in the list, so among ties the earlier input element comes first (the sort inserts the earlier elements last) |
| MemoryPatterns.SortDescSorted | langchain_memory/memory_patterns.py:59 | `sort(key=-score)` orders by non-increasing score |
| MemoryPatterns.SortDescPermutes | langchain_memory/memory_patterns.py:59 | the sort is a permutation |
| MemoryPatterns.SortDescStable | langchain_memory/memory_patterns.py:59 | entries of equal score keep their corpus order |
| MemoryPatterns.Texts | langchain_memory/memory_patterns.py:60 | one snippet per scored entry (the contract states the length; the contents are given by the definition) |
| MemoryPatterns.RankedIsStableSort | langchain_memory/memory_patterns.py:58-59 | the ranking is sorted by score, a permutation of the scores, and stable for every score |
| MemoryPatterns.TopK | langchain_memory/memory_patterns.py:57-60 | definition: score every stored pair against the query vector, sort by descending score, and return the snippets of the first k |
| MemoryPatterns.TopKIsBestPrefix | langchain_memory/memory_patterns.py:58-60 | exactly min(k, n) snippets, the first k of the ranking, in non-increasing score, each scoring at least as high as any snippet left out |
| MemoryPatterns.PolicyMemory.EnsureEmbeddings | langchain_memory/memory_patterns.py:43-47 | an empty cache is filled with the i-th vector paired with the i-th snippet; a filled cache is left unchanged |
| MemoryPatterns.PolicyMemory.RetrieveRelevant | langchain_memory/memory_patterns.py:54-60 | fills the cache as above, then returns the top-k snippets for the query's embedding, exactly min(k, cache size) of them |
| MemoryPatterns.Keys | langchain_memory/memory_patterns.py:86 | one key per entry (the contract states the length; the keys in insertion order are given by the definition) |
| MemoryPatterns.Lookup | langchain_memory/memory_patterns.py:78 | definition: the value the insertion-ordered dict holds for a key, or none when the key is absent |
| MemoryPatterns.LookupAbsent | langchain_memory/memory_patterns.py:92 | a key has no value exactly when it is not among the keys |
| MemoryPatterns.Assign | langchain_memory/memory_patterns.py:92 | definition: `user_prefs[key] = value`, replacing the entry of an existing key in place, or appending a new entry at the end |
| MemoryPatterns.AssignLookup | langchain_memory/memory_patterns.py:92 | after `d[k] = v`, k maps to v and every other key keeps its value |
| MemoryPatterns.AssignKeys | langchain_memory/memory_patterns.py:92 | an existing key keeps its place; a new key goes at the end |
| MemoryPatterns.AssignDistinct | langchain_memory/memory_patterns.py:92 | keys stay distinct |
| MemoryPatterns.Lines | langchain_memory/memory_patterns.py:86 | one line per entry (the contract states the length; the `"k: v"` text of each is given by the definition) |
| MemoryPatterns.JoinStartsWithFirst | langchain_memory/memory_patterns.py:86 | a join starts with its first part |
| MemoryPatterns.Describe | langchain_memory/memory_patterns.py:82-86 | definition: "No preferences stored yet." for an empty dict, otherwise the `"k: v"` lines joined by a vertical bar with a space on each side |
| MemoryPatterns.DescribeEmptyIff | langchain_memory/memory_patterns.py:84-86 | the text is "No preferences stored yet." exactly when the store is empty |
| MemoryPatterns.DescribeNewKey | langchain_memory/memory_patterns.py:86-92 | a new preference adds its `k: v` entry after the separator at the end of the listing, or is the whole listing when it is the first |
| MemoryPatterns.AssignAppends | langchain_memory/memory_patterns.py:92 | a new key is appended at the end |
| MemoryPatterns.OverwriteLines | langchain_memory/memory_patterns.py:86-92 | overwriting changes only that key's line, in place |
| MemoryPatterns.AssignAt | langchain_memory/memory_patterns.py:92 | overwriting an existing key replaces only its entry, keeping positions |
| MemoryPatterns.AssignLength | langchain_memory/memory_patterns.py:92 | an assignment adds at most one entry |
| MemoryPatterns.PreferenceStore.GetUserPreferences | langchain_memory/memory_patterns.py:82-86 | the fixed "No preferences stored yet." reply exactly when nothing is stored |
| MemoryPatterns.PreferenceStore.SetUserPreference | langchain_memory/memory_patterns.py:90-93 | stores the value under the key, other keys unchanged, returns `"Stored k=v."` |
| ShortTermMemory.Window | langchain_memory/short_term_memory.py:38-41 | definition: the messages plus the new human message, cut to the newest 20 when there are more |
| ShortTermMemory.WindowShape | langchain_memory/short_term_memory.py:34-42 | the history the chain sees has min(len+1, 20) messages, ends with the new user message, and is the newest part of the history |
| ShortTermMemory.RunChat | langchain_memory/short_term_memory.py:36-44 | the reply is the chain's answer on that window. The returned list is the window plus the AI message. Untrimmed, it is the caller's list itself; trimmed, it is a fresh list, and the caller's list gained only the user message |
| ShortTermMemory.Turn | langchain_memory/short_term_memory.py:38-44 | definition: the list `run_chat` returns, the window followed by the AI message holding the chain's reply on that window |
| ShortTermMemory.Conversation | langchain_memory/short_term_memory.py:53-57 | definition: the list after feeding each input to `run_chat` in turn, each turn starting from the list the previous one returned |
| ShortTermMemory.ConversationSnoc | langchain_memory/short_term_memory.py:53-57 | each loop turn feeds the previous result back |
| ShortTermMemory.ConversationLength | langchain_memory/short_term_memory.py:49-58 | after n turns from `[]` the list has min(2n, 21) messages |
| ShortTermMemory.TurnsTaken | langchain_memory/short_term_memory.py:53-56 | no more turns than inputs |
| ShortTermMemory.TurnsTakenIs | langchain_memory/short_term_memory.py:53-56 | the loop runs until the first input that strips to empty |
| ShortTermMemory.Stripped | langchain_memory/short_term_memory.py:54 | one stripped input per input |
| ShortTermMemory.ConverseStep | langchain_memory/short_term_memory.py:54-57 | one more non-blank input is one more turn |
| ShortTermMemory.ConverseTurn | langchain_memory/short_term_memory.py:57 | one pass of the driver loop passes the stripped input to `run_chat` and keeps the list it returns, which extends the conversation by one turn |
| ShortTermMemory.Converse | langchain_memory/short_term_memory.py:47-58 | the driver stops at the first blank input, and the list it holds is the conversation over the stripped inputs, of length min(2·turns, 21) |
| PersistentMemory.Load | langchain_memory/persistent_memory.py:38-46 | definition: `[]` when the file does not exist or has no entry for the session, otherwise the stored messages |
| PersistentMemory.Save | langchain_memory/persistent_memory.py:49-58 | definition: the file exists afterwards and maps the session to its newest 50 messages; the other entries are the file's, or none when there was no file |
| PersistentMemory.SaveThenLoad | langchain_memory/persistent_memory.py:38-58 | loading after saving n messages gives the last min(n, 50) of them, in order |
| PersistentMemory.SaveKeepsOthers | langchain_memory/persistent_memory.py:54-57 | saving one session leaves every other session's history unchanged, and the file exists afterwards |
| PersistentMemory.SaveOverwrites | langchain_memory/persistent_memory.py:57 | a second save replaces the first rather than appending to it |
| PersistentMemory.UnsavedIsEmpty | langchain_memory/persistent_memory.py:40-45 | with no file, or no entry for the session, the history is empty |
| PersistentMemory.TurnThenLoad | langchain_memory/persistent_memory.py:61-68 | after a turn, the session holds the newest 50 of old history, human message and AI reply |
| PersistentMemory.SessionStore.LoadHistory | langchain_memory/persistent_memory.py:38-46 | returns the session's stored messages, or `[]` |
| PersistentMemory.SessionStore.SaveHistory | langchain_memory/persistent_memory.py:49-58 | the store becomes the old store with this session's entry replaced by the newest 50 messages |
| PersistentMemory.SessionStore.RunTurn | langchain_memory/persistent_memory.py:61-68 | the chain sees the history ending with the human message; the store then holds history + human + AI, capped |
| LinuxPerformanceDebug.CpuTool | crewai/linux_performance_debug.py:17-41 | definition: `"CPU Statistics:\n"` plus the first line of `top`'s output mentioning `Cpu(s)` or `%Cpu`, the unparsed reply when no line does, or the error reply when `top` raises |
| LinuxPerformanceDebug.CpuReportFirstLine | crewai/linux_performance_debug.py:32-36 | the reply is `"CPU Statistics:\n"` plus the first line mentioning `Cpu(s)` or `%Cpu` |
| LinuxPerformanceDebug.CpuReportUnparsed | crewai/linux_performance_debug.py:35-38 | the "Unable to parse CPU data" reply comes exactly when no line mentions the CPU |
| LinuxPerformanceDebug.DiskLinesShape | crewai/linux_performance_debug.py:91-94 | the fallback keeps the first min(25, m) of the m non-`loop` lines, in file order |
| LinuxPerformanceDebug.DiskFallbackVerbatim | crewai/linux_performance_debug.py:91-94 | a file of at most 25 lines, none about a loop device, is reported verbatim |
| Base.FilterKeepsAll | crewai/linux_performance_debug.py:92 | a filter that every line passes keeps the list |
| LinuxPerformanceDebug.MemoryTool | crewai/linux_performance_debug.py:44-64 | definition: `"Memory Statistics:\n"` plus `vmstat`'s output, or the error reply when it raises |
| LinuxPerformanceDebug.DiskTool | crewai/linux_performance_debug.py:67-97 | definition: `iostat`'s output after its title when `which iostat` exits with 0, otherwise the first 25 non-`loop` lines of `/proc/diskstats` after theirs; any raised error gives the error reply |
| LinuxPerformanceDebug.NetworkTool | crewai/linux_performance_debug.py:100-123 | definition: `ip -s link`'s output after its title when it exits with 0, otherwise `/proc/net/dev` after its own title; any raised error gives the error reply |
| LinuxPerformanceDebug.VerbatimReports | crewai/linux_performance_debug.py:61-120 | the memory, `iostat`, `ip` and `/proc/net/dev` replies carry the output verbatim after their title; network falls back exactly on a non-zero exit code |
| LinuxPerformanceDebug.FailuresAreReported | crewai/linux_performance_debug.py:40-123 | no tool raises: whichever call fails (the command, `which iostat`, `iostat` after a successful `which`, or the `/proc` read), the reply is the tool's exact `"Error collecting …: "` prefix followed by the exception's text |
| LinuxPerformance2.FirstPidHeader | crewai/linux-performance2.py:67-71 | a found header index lies inside the output |
| LinuxPerformance2.FirstPidHeaderIsFirst | crewai/linux-performance2.py:67-71 | the index is of the first line whose stripped form starts with `"PID "`; none exists exactly when no line qualifies |
| LinuxPerformance2.FindPidHeader | crewai/linux-performance2.py:67-71 | the `for`/`break` loop finds the first header line, or reports that there is none |
| LinuxPerformance2.TopCpuProcesses | crewai/linux-performance2.py:49-84 | the reply for `top`'s output, or the error reply |
| LinuxPerformance2.TopReport | crewai/linux-performance2.py:60-81 | definition: the stripped output split into lines; the sorted title plus the first `PID ` header line and the 15 lines after it, or the raw title plus the first 40 lines when there is no header |
| LinuxPerformance2.TopReportWindow | crewai/linux-performance2.py:64-81 | with a header, the header plus up to 15 following lines, in order; without one, the raw title plus the first 40 lines |
| LinuxPerformance2.TopReportLinesRecoverable | crewai/linux-performance2.py:79-81 | splitting the reply after its title gives exactly the shown window of lines |

## Left out

- Every subprocess run, file read and JSON store read or write is an input or a `Store` value, not I/O. Timeouts and missing programs are the `Raised` case of a command result.
- Calls into LLM chains, embedding models and agent frameworks are function parameters with no assumed behaviour. This covers `chain.invoke`, `embed_documents`, `embed_query`, CrewAI agents and n8n.
- The `example_*` functions of the output-parser script, the Streamlit apps, the RAG scripts and the middleware script only wire frameworks together and are not part of this model.
- The retrieval scores are integers, not floats: floating-point rounding of the dot product is not modelled.
- MemoryPatterns.PolicyMemory.RetrieveRelevant: `top_k` is a parameter rather than a default argument. Its default of 3 is the constant `DefaultTopK`, the only value the helpdesk query passes; the helpdesk query itself only calls the chain and is not modelled. `top_k` is a `nat`. A negative `top_k`, which Python slicing would turn into dropping from the end, is not modelled.
- MemoryPatterns.SortDesc: Python's in-place timsort is modelled as a functional stable insertion sort. The proved properties (sorted, permutation, stable) are the ones that determine a stable sort's result, but the in-place update of the local list is not modelled.
- MemoryPatterns.PolicyMemory.EnsureEmbeddings: an embedder that returns no vectors leaves the cache empty, so the next call embeds again. This is the source's behaviour too.
- Character classes are ASCII: `\w` is letters, digits and `_`; whitespace is Python's ASCII `isspace` set. Unicode letters and spaces are not modelled.
- Text.SplitLines: breaks only on `'\n'`. `splitlines()` also breaks on `'\r'`, `'\v'`, `'\f'`, `'\x1c'`–`'\x1e'` and Unicode separators.
- JSON objects are association lists. Duplicate keys are not modelled: `Get` takes the first binding. JSON numbers are integers only, and `repr` of a string is single-quoted without escaping.
- Message serialisation with `message_to_dict` and `messages_from_dict` is assumed to round-trip. Stored messages are the messages themselves.
- ShortTermMemory.Converse: `input()` is a finite sequence of lines. Running out of lines (`EOFError`) is modelled as stopping, and printing is left out.
- The memory tool of `linux-performance2.py` runs `free -h` instead of `vmstat 1 2`. Because the command output is an input, both scripts share `LinuxPerformanceDebug.MemoryTool`.
- The module-level checks of `OPENAI_API_KEY` and similar environment variables are not modelled.
- CodeBlockParser.FencedBlockGivesStrippedBody requires that the body does not end with a backtick. With a body such as ``x` ``, the closing fence the regex finds starts one character earlier, and the code is `x`. This is the regex behaving as written, not a defect.
- CodeBlockParser.FencedBlockGivesStrippedBody also requires every character of the language tag to be a `\w` character. With a tag such as `c++` (the input ```` ```c++\nx``` ````), `(?:\w+)?\s*\n` cannot get past the `+`, there is no match, and the code is None.
- Base.Keep: the bound is positive, as every caller's constant (20 and 50) is. With a bound of 0, Python's `s[-0:]` would keep the whole list, which the model does not capture.
- CodeBlockParser.Invoke: a message's `content` is a string. Non-string content, such as LangChain's list of content parts, makes `re.search` raise `TypeError`; that error path is not modelled.
