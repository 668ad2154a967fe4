/** The n8n code node that turns the changed files of a GitHub pull request into one review
    prompt: `build_devops_pr_review_prompt` and the loop that flattens the incoming items. */
module PrReviewPrompt {
  import opened Base
  import opened Text

  /** A parsed JSON value. An object keeps its members in insertion order, as a Python dict
      does; `Get` reads the first member with a given key. */
  datatype Json =
    | JNull
    | JBool(b: bool)
    | JNum(n: int)
    | JStr(s: string)
    | JArray(items: seq<Json>)
    | JObject(fields: seq<(string, Json)>)

  function Get(fields: seq<(string, Json)>, key: string): (r: Option<Json>)
    ensures r.Some? <==> exists i :: 0 <= i < |fields| && fields[i].0 == key
    ensures r.Some? ==> exists i :: 0 <= i < |fields| && fields[i] == (key, r.value)
  {
    if fields == [] then None
    else if fields[0].0 == key then Some(fields[0].1)
    else
      var rest := Get(fields[1..], key);
      assert forall i :: 1 <= i < |fields| ==> fields[i] == fields[1..][i - 1];
      rest
  }

  /** Python's `d.get(key, default)`. */
  function GetOr(fields: seq<(string, Json)>, key: string, default: Json): Json
  {
    match Get(fields, key)
    case Some(v) => v
    case None => default
  }

  /** Python's truth value of a JSON value. */
  predicate Truthy(j: Json)
  {
    match j
    case JNull => false
    case JBool(b) => b
    case JNum(n) => n != 0
    case JStr(s) => s != ""
    case JArray(items) => items != []
    case JObject(fields) => fields != []
  }

  /** The Python type of a JSON value. */
  datatype PyType = NoneType | Bool | Int | Str | List | Dict

  function TypeOf(j: Json): PyType
  {
    match j
    case JNull => NoneType
    case JBool(_) => Bool
    case JNum(_) => Int
    case JStr(_) => Str
    case JArray(_) => List
    case JObject(_) => Dict
  }

  /** The `AttributeError` Python raises when a method is called on a value without it. */
  datatype AttributeError = AttributeError(owner: PyType, attribute: string)

  /** The node's outcome: a value, or the exception that ends the run. */
  datatype Outcome<T> = Done(value: T) | Raised(error: AttributeError)

  function TypeName(t: PyType): string
  {
    match t
    case NoneType => "NoneType"
    case Bool => "bool"
    case Int => "int"
    case Str => "str"
    case List => "list"
    case Dict => "dict"
  }

  /** The exception's message, as Python words it. */
  function ErrorMessage(e: AttributeError): string
  {
    "'" + TypeName(e.owner) + "' object has no attribute '" + e.attribute + "'"
  }

  function DigitChar(d: nat): char
    requires d < 10
  {
    "0123456789"[d]
  }

  function NatToString(n: nat): string
  {
    if n < 10 then [DigitChar(n)] else NatToString(n / 10) + [DigitChar(n % 10)]
  }

  /** Python's `repr` of a JSON value; strings are quoted with `'` and not escaped. */
  function Repr(j: Json): string
    decreases j
  {
    match j
    case JNull => "None"
    case JBool(b) => if b then "True" else "False"
    case JNum(n) => if n < 0 then "-" + NatToString(-n) else NatToString(n)
    case JStr(s) => "'" + s + "'"
    case JArray(items) =>
      "[" + Join(seq(|items|, i requires 0 <= i < |items| => Repr(items[i])), ", ") + "]"
    case JObject(fields) =>
      "{" + Join(seq(|fields|, i requires 0 <= i < |fields| =>
        "'" + fields[i].0 + "': " + Repr(fields[i].1)), ", ") + "}"
  }

  /** Python's `str()`, as an f-string renders a value: a string is itself. */
  function Show(j: Json): string
  {
    if j.JStr? then j.s else Repr(j)
  }

  const NoPatchLine := "No patch available (likely a binary or large file).\n"
  const SectionEnd := "\n---\n\n"

  function Header(name: string): string
  {
    "### File: " + name + "\n\n"
  }

  /** What `filename = f.get("filename", "unknown-file")` renders to. */
  function FileName(fields: seq<(string, Json)>): string
  {
    Show(GetOr(fields, "filename", JStr("unknown-file")))
  }

  /** The `diff` fence around a patch whose own fences are already neutralised. */
  function DiffBlock(safePatch: string): string
  {
    "```diff\n" + safePatch + "\n```\n"
  }

  /** What follows the header for a patch that is a string or falsy. */
  function Body(patch: Json): string
    requires !Truthy(patch) || patch.JStr?
  {
    if Truthy(patch) then DiffBlock(ReplaceFences(patch.s)) else NoPatchLine
  }

  /** A file entry on which the loop raises: `f.get` on a value that is not a dict, or
      `patch.replace` on a truthy patch that is not a string. */
  predicate Fails(f: Json)
  {
    !f.JObject? || (var p := GetOr(f.fields, "patch", JNull); Truthy(p) && !p.JStr?)
  }

  /** The text one loop iteration adds to `diffs`, or the error it raises: `f.get` on a value
      that is not a dict, or `patch.replace` on a truthy patch that is not a string. */
  function Section(f: Json): (r: Outcome<string>)
    ensures r.Raised? <==> Fails(f)
    ensures r.Done? ==> StartsWith(r.value, Header(FileName(f.fields)))
    ensures r.Done? ==> (|SectionEnd| <= |r.value| &&
      r.value[|r.value| - |SectionEnd|..] == SectionEnd)
  {
    match f
    case JObject(fields) =>
      var patch := GetOr(fields, "patch", JNull);
      if Truthy(patch) && !patch.JStr? then Raised(AttributeError(TypeOf(patch), "replace"))
      else Done(Header(FileName(fields)) + Body(patch) + SectionEnd)
    case _ => Raised(AttributeError(TypeOf(f), "get"))
  }

  /** The `diffs` text accumulated over `files`, or the first error. */
  function Diffs(files: seq<Json>): Outcome<string>
  {
    if files == [] then Done("")
    else
      match Diffs(files[..|files| - 1])
      case Raised(e) => Raised(e)
      case Done(d) =>
        match Section(files[|files| - 1])
        case Raised(e) => Raised(e)
        case Done(sec) => Done(d + sec)
  }

  /** The f-string template around the diffs, before `.strip()`. */
  const Lead := "You are a senior DevOps engineer"
  const Opening := Lead + " with deep experience in CI/CD, IaC, Kubernetes, cloud, and security.\n\nPlease review the following code changes in these files:\n\n"
  const LastInstruction := "- Ignore files without meaningful patches."
  const Mission := "\n\nYour mission:\n- Review the proposed changes file by file.\n- Focus on DevOps best practices, reliability, security, and scalability.\n- Identify potential issues in CI/CD, IaC, containerization, or cloud configs.\n- Suggest concrete improvements where applicable.\n" + LastInstruction

  /** The diffs between the opening and the instructions. */
  function Framed(diffs: string): string
  {
    Opening + diffs + Mission
  }

  /** The f-string: its text starts and ends on a line break. */
  function Template(diffs: string): string
  {
    "\n" + Framed(diffs) + "\n"
  }

  /** `build_devops_pr_review_prompt` as a value. */
  function Prompt(files: seq<Json>): Outcome<string>
  {
    match Diffs(files)
    case Raised(e) => Raised(e)
    case Done(d) => Done(Strip(Template(d)))
  }

  /** `build_devops_pr_review_prompt`: one `diffs +=` step per file, then the template and
      `strip()`. */
  method BuildPrompt(files: seq<Json>) returns (r: Outcome<string>)
    ensures r == Prompt(files)
  {
    var diffs := "";
    var i := 0;
    while i < |files|
      invariant 0 <= i <= |files|
      invariant Diffs(files[..i]) == Done(diffs)
    {
      DiffsStep(files, i);
      var next := AppendSection(diffs, files[i]);
      if next.Raised? {
        DiffsKeepsError(files, i + 1);
        return Raised(next.error);
      }
      diffs := next.value;
      i := i + 1;
    }
    assert files[..i] == files;
    r := Done(Strip(Template(diffs)));
  }

  /** One pass of the loop body: the header, the fenced patch or the no-patch line, and the
      rule, appended to `diffs`; or the `AttributeError` the file raises. */
  method AppendSection(diffs: string, f: Json) returns (r: Outcome<string>)
    ensures Section(f).Raised? ==> r == Raised(Section(f).error)
    ensures Section(f).Done? ==> r == Done(diffs + Section(f).value)
  {
    if !f.JObject? {
      return Raised(AttributeError(TypeOf(f), "get"));
    }
    var d := diffs;
    var filename := FileName(f.fields);
    var patch := GetOr(f.fields, "patch", JNull);
    d := d + Header(filename);
    if Truthy(patch) {
      if !patch.JStr? {
        return Raised(AttributeError(TypeOf(patch), "replace"));
      }
      var safePatch := ReplaceFences(patch.s);
      d := d + DiffBlock(safePatch);
    } else {
      d := d + NoPatchLine;
    }
    d := d + SectionEnd;
    assert d == diffs + (Header(filename) + Body(patch) + SectionEnd);
    r := Done(d);
  }

  /** One more file adds its section, or fails with its error. */
  lemma DiffsStep(files: seq<Json>, i: nat)
    requires i < |files| && Diffs(files[..i]).Done?
    ensures Section(files[i]).Raised? ==> Diffs(files[..i + 1]) == Raised(Section(files[i]).error)
    ensures Section(files[i]).Done? ==>
      Diffs(files[..i + 1]) == Done(Diffs(files[..i]).value + Section(files[i]).value)
  {
    assert files[..i + 1][..i] == files[..i];
    assert files[..i + 1][i] == files[i];
  }

  /** Once a prefix of the files fails, the whole list fails with the same error. */
  lemma {:induction false} DiffsKeepsError(files: seq<Json>, j: nat)
    requires j <= |files| && Diffs(files[..j]).Raised?
    ensures Diffs(files) == Diffs(files[..j])
    decreases |files| - j
  {
    if j < |files| {
      assert files[..j + 1][..j] == files[..j];
      DiffsKeepsError(files, j + 1);
    } else {
      assert files[..j] == files;
    }
  }

  /** The diffs are the sections of the files, one per file and in input order. */
  lemma {:induction false} DiffsFailIffSectionFails(files: seq<Json>)
    ensures Diffs(files).Done? <==> forall i :: 0 <= i < |files| ==> !Fails(files[i])
  {
    if files != [] {
      var init, f := files[..|files| - 1], files[|files| - 1];
      assert files == init + [f];
      DiffsSnoc(init, f);
      DiffsFailIffSectionFails(init);
      assert forall i :: 0 <= i < |init| ==> init[i] == files[i];
    }
  }

  /** One more file adds its section, or fails. */
  lemma DiffsSnoc(files: seq<Json>, f: Json)
    ensures Diffs(files + [f]) == match Diffs(files)
      case Raised(e) => Raised(e)
      case Done(d) => match Section(f)
        case Raised(e) => Raised(e)
        case Done(sec) => Done(d + sec)
  {
    assert (files + [f])[..|files|] == files;
  }

  /** The text of a section that does not fail. */
  function SectionText(f: Json): string
  {
    match Section(f)
    case Done(s) => s
    case Raised(_) => ""
  }

  /** The section texts of the files, one per file and in input order. */
  function SectionTexts(files: seq<Json>): (r: seq<string>)
    ensures |r| == |files|
    ensures forall i :: 0 <= i < |files| ==> r[i] == SectionText(files[i])
  {
    if files == [] then []
    else SectionTexts(files[..|files| - 1]) + [SectionText(files[|files| - 1])]
  }

  /** The diffs are the sections of the files, one per file and in input order. */
  lemma {:induction false} DiffsAreSections(files: seq<Json>)
    ensures Diffs(files).Done? ==> Diffs(files).value == Concat(SectionTexts(files))
  {
    if files != [] && Diffs(files).Done? {
      var n := |files| - 1;
      assert files[..n + 1] == files;
      DiffsFailIffSectionFails(files);
      DiffsStep(files, n);
      DiffsAreSections(files[..n]);
      ConcatAppend(SectionTexts(files[..n]), [SectionText(files[n])]);
    }
  }

  /** A missing `filename` is rendered as `unknown-file`. */
  lemma MissingNameIsUnknownFile(fields: seq<(string, Json)>)
    requires forall i :: 0 <= i < |fields| ==> fields[i].0 != "filename"
    ensures FileName(fields) == "unknown-file"
  {
  }

  /** A truthy string patch is shown in a `diff` fence with every inner fence replaced by
      `'''`, so the patch cannot close the fence early; a patch without fences is kept as it
      is. */
  lemma PatchSection(fields: seq<(string, Json)>, patch: string)
    requires Get(fields, "patch") == Some(JStr(patch)) && patch != ""
    ensures Section(JObject(fields)) == Done(Header(FileName(fields)) + DiffBlock(ReplaceFences(patch)) + SectionEnd)
    ensures !HasFence(ReplaceFences(patch))
    ensures !HasFence(patch) ==> ReplaceFences(patch) == patch
  {
    assert GetOr(fields, "patch", JNull) == JStr(patch);
    ReplaceFencesRemovesFences(patch);
    if !HasFence(patch) {
      ReplaceFencesIdentity(patch);
    }
  }

  /** A missing, `null`, empty or otherwise falsy patch gives the fixed no-patch line. */
  lemma NoPatchSection(fields: seq<(string, Json)>)
    requires !Truthy(GetOr(fields, "patch", JNull))
    ensures Section(JObject(fields)) == Done(Header(FileName(fields)) + NoPatchLine + SectionEnd)
  {
  }

  /** The framed diffs begin with the opening sentence, end with the instructions and have
      no whitespace at either end. */
  lemma FramedShape(d: string)
    ensures StartsWith(Framed(d), Lead)
    ensures |Mission| <= |Framed(d)| && Framed(d)[|Framed(d)| - |Mission|..] == Mission
    ensures |Framed(d)| > 0 && !IsSpace(Framed(d)[0]) && !IsSpace(Framed(d)[|Framed(d)| - 1])
  {
    var p := Framed(d);
    assert p[..|Lead|] == Lead;
    assert p[|p| - |Mission|..] == Mission;
    assert Lead[0] == 'Y';
    assert LastInstruction[|LastInstruction| - 1] == '.';
    assert p[0] == Lead[0];
    assert p[|p| - 1] == LastInstruction[|LastInstruction| - 1];
  }

  /** The prompt is the framed diffs: `strip()` removes exactly the line break before the
      opening sentence and the one after the last instruction. */
  lemma PromptText(files: seq<Json>)
    ensures Prompt(files).Done? <==> Diffs(files).Done?
    ensures Prompt(files).Done? ==> Prompt(files).value == Framed(Diffs(files).value)
  {
    if Diffs(files).Done? {
      FramedShape(Diffs(files).value);
      StripNewlineFrame(Framed(Diffs(files).value));
    }
  }

  /** The prompt: the opening sentence first, the instructions last, no whitespace at either
      end. */
  lemma PromptShape(files: seq<Json>)
    ensures Prompt(files).Done? ==> StartsWith(Prompt(files).value, Lead)
    ensures Prompt(files).Done? ==> var p := Prompt(files).value;
      |Mission| <= |p| && p[|p| - |Mission|..] == Mission
    ensures Prompt(files).Done? ==> var p := Prompt(files).value;
      |p| > 0 && !IsSpace(p[0]) && !IsSpace(p[|p| - 1])
  {
    PromptText(files);
    if Diffs(files).Done? {
      FramedShape(Diffs(files).value);
    }
  }

  /** With no files the prompt still carries the whole instruction block. */
  lemma EmptyPrompt()
    ensures Prompt([]).Done?
    ensures var p := Prompt([]).value;
      |p| == |Opening| + |Mission| && p[..|Opening|] == Opening && p[|Opening|..] == Mission
  {
    PromptText([]);
    var p := Framed("");
    assert p[..|Opening|] == Opening;
    assert p[|Opening|..] == Mission;
  }

  /** `it.get("json", {})` for one incoming item. */
  function JsonOf(item: Json): Outcome<Json>
  {
    match item
    case JObject(fields) => Done(GetOr(fields, "json", JObject([])))
    case _ => Raised(AttributeError(TypeOf(item), "get"))
  }

  predicate HasKey(fields: seq<(string, Json)>, key: string)
  {
    Get(fields, key).Some?
  }

  /** What one item's `json` adds to `files`: itself when it has a `filename` (even next to a
      `body`), otherwise the elements of a list `body`, otherwise nothing. */
  function Contribution(j: Json): seq<Json>
  {
    match j
    case JObject(fields) =>
      if HasKey(fields, "filename") then [j]
      else (match Get(fields, "body")
        case Some(JArray(body)) => body
        case _ => [])
    case _ => []
  }

  /** What one incoming item adds to `files`, or the error `it.get` raises on it. */
  function ItemFiles(item: Json): Outcome<seq<Json>>
  {
    match JsonOf(item)
    case Raised(e) => Raised(e)
    case Done(j) => Done(Contribution(j))
  }

  /** The values `step` produces for the items, concatenated in order, or the first error. */
  function Gather(items: seq<Json>, step: Json -> Outcome<seq<Json>>): Outcome<seq<Json>>
  {
    if items == [] then Done([])
    else
      match Gather(items[..|items| - 1], step)
      case Raised(e) => Raised(e)
      case Done(acc) =>
        match step(items[|items| - 1])
        case Raised(e) => Raised(e)
        case Done(more) => Done(acc + more)
  }

  /** The flattened `files` list, or the error of the first item that is not a dict. */
  function Flatten(items: seq<Json>): Outcome<seq<Json>>
  {
    Gather(items, ItemFiles)
  }

  /** The flattening loop over `_items`, with `append` and `extend` on `files`. */
  method FlattenItems(items: seq<Json>) returns (r: Outcome<seq<Json>>)
    ensures r == Flatten(items)
  {
    var files: seq<Json> := [];
    var i := 0;
    while i < |items|
      invariant 0 <= i <= |items|
      invariant Flatten(items[..i]) == Done(files)
    {
      assert items[..i + 1][..i] == items[..i];
      var it := items[i];
      if !it.JObject? {
        FlattenKeepsError(items, i + 1);
        return Raised(AttributeError(TypeOf(it), "get"));
      }
      ghost var before := files;
      var j := GetOr(it.fields, "json", JObject([]));
      if j.JObject? && HasKey(j.fields, "filename") {
        files := files + [j];
      } else if j.JObject? && HasKey(j.fields, "body") && GetOr(j.fields, "body", JNull).JArray? {
        files := files + GetOr(j.fields, "body", JNull).items;
      }
      assert items[..i + 1][i] == it;
      assert JsonOf(it) == Done(j);
      assert files == before + Contribution(j);
      i := i + 1;
    }
    assert items[..i] == items;
    r := Done(files);
  }

  lemma {:induction false} FlattenKeepsError(items: seq<Json>, j: nat)
    requires j <= |items| && Flatten(items[..j]).Raised?
    ensures Flatten(items) == Flatten(items[..j])
    decreases |items| - j
  {
    if j < |items| {
      assert items[..j + 1][..j] == items[..j];
      FlattenKeepsError(items, j + 1);
    } else {
      assert items[..j] == items;
    }
  }

  /** Flattening two batches of items is flattening each and concatenating, in order. */
  lemma FlattenAppend(a: seq<Json>, b: seq<Json>)
    requires Flatten(a).Done? && Flatten(b).Done?
    ensures Flatten(a + b) == Done(Flatten(a).value + Flatten(b).value)
  {
    GatherAppend(a, b, ItemFiles);
  }

  lemma {:induction false} GatherAppend(a: seq<Json>, b: seq<Json>, step: Json -> Outcome<seq<Json>>)
    requires Gather(a, step).Done? && Gather(b, step).Done?
    ensures Gather(a + b, step) == Done(Gather(a, step).value + Gather(b, step).value)
    decreases |b|
  {
    if b == [] {
      assert a + b == a;
      assert Gather(a, step).value + [] == Gather(a, step).value;
    } else {
      var init, x := b[..|b| - 1], b[|b| - 1];
      assert Gather(init, step).Done? && step(x).Done?
        && Gather(b, step).value == Gather(init, step).value + step(x).value by {
        assert b == init + [x];
        GatherSnoc(init, x, step);
      }
      var fa, fb, c := Gather(a, step).value, Gather(init, step).value, step(x).value;
      assert Gather(a + init, step) == Done(fa + fb) by {
        GatherAppend(a, init, step);
      }
      assert Gather(a + b, step) == Done((fa + fb) + c) by {
        assert a + b == (a + init) + [x];
        GatherSnoc(a + init, x, step);
      }
      assert (fa + fb) + c == fa + (fb + c);
    }
  }

  /** One more item adds what `step` makes of it, or fails. */
  lemma GatherSnoc(items: seq<Json>, x: Json, step: Json -> Outcome<seq<Json>>)
    ensures Gather(items + [x], step) == match Gather(items, step)
      case Raised(e) => Raised(e)
      case Done(acc) => match step(x)
        case Raised(e) => Raised(e)
        case Done(more) => Done(acc + more)
  {
    assert (items + [x])[..|items|] == items;
  }

  /** A wrapped file object is taken whole even when it also carries a `body` list; a
      wrapper without `filename` contributes exactly its `body` list; anything else adds
      nothing. */
  lemma ContributionCases(j: Json)
    ensures j.JObject? && HasKey(j.fields, "filename") ==> Contribution(j) == [j]
    ensures (j.JObject? && !HasKey(j.fields, "filename") && Get(j.fields, "body").Some? &&
      Get(j.fields, "body").value.JArray?) ==> Contribution(j) == Get(j.fields, "body").value.items
    ensures (!j.JObject? || (!HasKey(j.fields, "filename") &&
      (Get(j.fields, "body").None? || !Get(j.fields, "body").value.JArray?))) ==> Contribution(j) == []
  {
  }

  /** The single output item `{"json": {"prompt": prompt}}`. */
  function OutputItem(prompt: string): Json
  {
    JObject([("json", JObject([("prompt", JStr(prompt))]))])
  }

  /** The whole code node as a value. */
  function Node(items: seq<Json>): Outcome<seq<Json>>
  {
    match Flatten(items)
    case Raised(e) => Raised(e)
    case Done(files) =>
      match Prompt(files)
      case Raised(e) => Raised(e)
      case Done(p) => Done([OutputItem(p)])
  }

  /** The code node: flatten the items, build the prompt, and return exactly one item. */
  method RunNode(items: seq<Json>) returns (r: Outcome<seq<Json>>)
    ensures r == Node(items)
    ensures r.Done? ==> (|r.value| == 1 && r.value[0].JObject? &&
      Get(r.value[0].fields, "json").Some? && Get(r.value[0].fields, "json").value.JObject?)
    ensures r.Done? ==> var inner := Get(r.value[0].fields, "json").value.fields;
      Get(inner, "prompt").Some? && Get(inner, "prompt").value.JStr? &&
      StartsWith(Get(inner, "prompt").value.s, Lead)
  {
    var files := FlattenItems(items);
    if files.Raised? {
      return Raised(files.error);
    }
    var prompt := BuildPrompt(files.value);
    if prompt.Raised? {
      return Raised(prompt.error);
    }
    PromptShape(files.value);
    r := Done([OutputItem(prompt.value)]);
  }
}
