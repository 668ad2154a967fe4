/** The two memory patterns of langchain_memory/memory_patterns.py: policy snippets retrieved
    by dot-product score (the embedder is a parameter), and a key/value store of user
    preferences read and written through two tools. Python's float vectors are integer
    vectors here. */
module MemoryPatterns {
  import opened Base
  import opened Text

  type Vector = seq<int>

  /** A `(score, snippet)` pair of `retrieve_relevant`. */
  type Scored = (int, string)

  /** `POLICY_SNIPPETS`. */
  const PolicySnippets: seq<string> := [
    "Employees must use the VPN when accessing internal tools from outside the office.",
    "Expense reports over 5000 USD require manager approval before submission.",
    "Leave requests should be submitted at least two weeks in advance for approval.",
    "Default password policy: 12 characters minimum, mix of letters, numbers, and symbols."
  ]

  /** The default `top_k` of `retrieve_relevant`, and the only value its caller passes. */
  const DefaultTopK: nat := 3

  // ---- Scoring ----

  /** `_dot`: `sum(x * y for x, y in zip(a, b))`. */
  function Dot(a: Vector, b: Vector): int
  {
    if a == [] || b == [] then 0 else a[0] * b[0] + Dot(a[1..], b[1..])
  }

  /** The sum of the products of a list of pairs. */
  function SumOfProducts(pairs: seq<(int, int)>): int
  {
    if pairs == [] then 0 else pairs[0].0 * pairs[0].1 + SumOfProducts(pairs[1..])
  }

  /** `_dot` sums the products of the pairs `zip` makes. */
  lemma {:induction false} DotIsSumOverZip(a: Vector, b: Vector)
    ensures Dot(a, b) == SumOfProducts(Zip(a, b))
  {
    if a != [] && b != [] {
      assert Zip(a, b)[1..] == Zip(a[1..], b[1..]);
      DotIsSumOverZip(a[1..], b[1..]);
    }
  }

  lemma {:induction false} DotSymmetric(a: Vector, b: Vector)
    ensures Dot(a, b) == Dot(b, a)
  {
    if a != [] && b != [] {
      DotSymmetric(a[1..], b[1..]);
    }
  }

  /** Entries past the shorter vector's length do not count: `zip` drops them. */
  lemma {:induction false} DotTruncates(a: Vector, b: Vector)
    ensures var m := Min(|a|, |b|); Dot(a, b) == Dot(a[..m], b[..m])
  {
    var m := Min(|a|, |b|);
    if a != [] && b != [] {
      DotTruncates(a[1..], b[1..]);
      assert a[..m][1..] == a[1..][..m - 1];
      assert b[..m][1..] == b[1..][..m - 1];
    }
  }

  /** `[(_dot(q_embed, vec), text) for vec, text in _snippet_embeddings]`. */
  function ScoreAll(q: Vector, store: seq<(Vector, string)>): (r: seq<Scored>)
    ensures |r| == |store|
  {
    seq(|store|, i requires 0 <= i < |store| => (Dot(q, store[i].0), store[i].1))
  }

  // ---- Ranking ----

  /** Places `x` behind every entry that scores strictly higher, so ahead of its ties. */
  function Insert(x: Scored, t: seq<Scored>): (r: seq<Scored>)
    ensures |r| == |t| + 1
  {
    if t == [] || t[0].0 <= x.0 then [x] + t else [t[0]] + Insert(x, t[1..])
  }

  /** `scored.sort(key=lambda x: -x[0])`: highest score first, and, as Python's sort is stable,
      ties in their input order. */
  function SortDesc(s: seq<Scored>): (r: seq<Scored>)
    ensures |r| == |s|
  {
    if s == [] then [] else Insert(s[0], SortDesc(s[1..]))
  }

  ghost predicate SortedDesc(s: seq<Scored>)
  {
    forall i, j :: 0 <= i < j < |s| ==> s[i].0 >= s[j].0
  }

  /** The entries that score `v`, in their order: what a stable sort must not reorder. */
  function Tied(s: seq<Scored>, v: int): seq<Scored>
  {
    if s == [] then [] else (if s[0].0 == v then [s[0]] else []) + Tied(s[1..], v)
  }

  lemma {:induction false} InsertPermutes(x: Scored, t: seq<Scored>)
    ensures multiset(Insert(x, t)) == multiset(t) + multiset{x}
  {
    if t != [] && t[0].0 > x.0 {
      InsertPermutes(x, t[1..]);
      assert t == [t[0]] + t[1..];
    }
  }

  lemma {:induction false} InsertSorted(x: Scored, t: seq<Scored>)
    requires SortedDesc(t)
    ensures SortedDesc(Insert(x, t))
  {
    if t != [] && t[0].0 > x.0 {
      var rest := Insert(x, t[1..]);
      InsertSorted(x, t[1..]);
      InsertBelow(x, t[1..], t[0].0);
      var r := [t[0]] + rest;
      forall i, j | 0 <= i < j < |r|
        ensures r[i].0 >= r[j].0
      {
        assert r[j] == rest[j - 1];
        if i > 0 {
          assert r[i] == rest[i - 1];
        }
      }
    }
  }

  /** A bound on `x` and on every entry of `t` bounds every entry after the insertion. */
  lemma {:induction false} InsertBelow(x: Scored, t: seq<Scored>, b: int)
    requires x.0 <= b && forall k :: 0 <= k < |t| ==> t[k].0 <= b
    ensures forall k :: 0 <= k < |Insert(x, t)| ==> Insert(x, t)[k].0 <= b
  {
    if t != [] && t[0].0 > x.0 {
      InsertBelow(x, t[1..], b);
      var rest := Insert(x, t[1..]);
      assert Insert(x, t) == [t[0]] + rest;
      forall k | 0 <= k < |Insert(x, t)|
        ensures Insert(x, t)[k].0 <= b
      {
        if k > 0 {
          assert Insert(x, t)[k] == rest[k - 1];
        }
      }
    }
  }

  lemma {:induction false} InsertTies(x: Scored, t: seq<Scored>, v: int)
    ensures Tied(Insert(x, t), v) == Tied([x] + t, v)
  {
    if t != [] && t[0].0 > x.0 {
      InsertTies(x, t[1..], v);
      assert ([t[0]] + Insert(x, t[1..]))[1..] == Insert(x, t[1..]);
      assert ([x] + t[1..])[1..] == t[1..];
      assert ([x] + t)[1..] == t;
    }
  }

  /** The sort orders by descending score. */
  lemma {:induction false} SortDescSorted(s: seq<Scored>)
    ensures SortedDesc(SortDesc(s))
  {
    if s != [] {
      SortDescSorted(s[1..]);
      InsertSorted(s[0], SortDesc(s[1..]));
    }
  }

  /** The sort only reorders. */
  lemma {:induction false} SortDescPermutes(s: seq<Scored>)
    ensures multiset(SortDesc(s)) == multiset(s)
  {
    if s != [] {
      SortDescPermutes(s[1..]);
      InsertPermutes(s[0], SortDesc(s[1..]));
      assert s == [s[0]] + s[1..];
    }
  }

  /** The sort is stable: entries of equal score keep their input order. */
  lemma {:induction false} SortDescStable(s: seq<Scored>, v: int)
    ensures Tied(SortDesc(s), v) == Tied(s, v)
  {
    if s != [] {
      SortDescStable(s[1..], v);
      InsertTies(s[0], SortDesc(s[1..]), v);
      assert ([s[0]] + SortDesc(s[1..]))[1..] == SortDesc(s[1..]);
    }
  }

  /** The snippets of a list of scored pairs. */
  function Texts(s: seq<Scored>): (r: seq<string>)
    ensures |r| == |s|
  {
    seq(|s|, i requires 0 <= i < |s| => s[i].1)
  }

  /** The scored pairs of the store, best first. */
  function Ranked(q: Vector, store: seq<(Vector, string)>): seq<Scored>
  {
    SortDesc(ScoreAll(q, store))
  }

  /** What `retrieve_relevant` returns for query vector `q`: `[text for _, text in scored[:top_k]]`. */
  function TopK(q: Vector, store: seq<(Vector, string)>, k: nat): seq<string>
  {
    var ranked := Ranked(q, store);
    Texts(ranked[..Min(k, |ranked|)])
  }

  /** The ranking is the stable descending sort of the scores: sorted, a permutation of the
      scored store, and ties in store order. */
  lemma RankedIsStableSort(q: Vector, store: seq<(Vector, string)>)
    ensures var r := Ranked(q, store);
      && SortedDesc(r)
      && multiset(r) == multiset(ScoreAll(q, store))
      && forall v :: Tied(r, v) == Tied(ScoreAll(q, store), v)
  {
    SortDescSorted(ScoreAll(q, store));
    SortDescPermutes(ScoreAll(q, store));
    forall v
      ensures Tied(Ranked(q, store), v) == Tied(ScoreAll(q, store), v)
    {
      SortDescStable(ScoreAll(q, store), v);
    }
  }

  /** `min(top_k, len(store))` snippets come back, best first, and each scores at least as high
      as every snippet left out. */
  lemma TopKIsBestPrefix(q: Vector, store: seq<(Vector, string)>, k: nat)
    ensures var r := Ranked(q, store); var top := TopK(q, store, k);
      && |top| == Min(k, |store|)
      && (forall i :: 0 <= i < |top| ==> top[i] == r[i].1)
      && (forall i, j :: 0 <= i < j < |top| ==> r[i].0 >= r[j].0)
      && forall i, j :: 0 <= i < |top| <= j < |r| ==> r[i].0 >= r[j].0
  {
    SortDescSorted(ScoreAll(q, store));
  }

  /** `_snippet_embeddings` and the two functions that use it. */
  class PolicyMemory {
    /** The cached `(vector, snippet)` pairs; empty until the first retrieval. */
    var cache: seq<(Vector, string)>

    constructor ()
      ensures cache == []
    {
      cache := [];
    }

    /** `_ensure_embeddings`: embeds the snippets only while the cache is empty, pairing the
        i-th vector with the i-th snippet. */
    method EnsureEmbeddings(embedDocuments: seq<string> -> seq<Vector>)
      modifies this
      ensures old(cache) == [] ==> cache == Zip(embedDocuments(PolicySnippets), PolicySnippets)
      ensures old(cache) != [] ==> cache == old(cache)
    {
      if cache == [] {
        var vecs := embedDocuments(PolicySnippets);
        cache := Zip(vecs, PolicySnippets);
      }
    }

    /** `retrieve_relevant(query, top_k)`; the helpdesk query calls it with `DefaultTopK`. */
    method RetrieveRelevant(query: string, topK: nat, embedDocuments: seq<string> -> seq<Vector>,
                            embedQuery: string -> Vector) returns (r: seq<string>)
      modifies this
      ensures old(cache) == [] ==> cache == Zip(embedDocuments(PolicySnippets), PolicySnippets)
      ensures old(cache) != [] ==> cache == old(cache)
      ensures r == TopK(embedQuery(query), cache, topK)
      ensures |r| == Min(topK, |cache|)
    {
      EnsureEmbeddings(embedDocuments);
      var qEmbed := embedQuery(query);
      var scored := ScoreAll(qEmbed, cache);
      scored := SortDesc(scored);
      r := Texts(scored[..Min(topK, |scored|)]);
      TopKIsBestPrefix(qEmbed, cache, topK);
    }
  }

  // ---- Preferences ----

  /** `user_prefs`: a dict, kept as its items in insertion order. */
  type Prefs = seq<(string, string)>

  function Keys(entries: Prefs): (r: seq<string>)
    ensures |r| == |entries|
  {
    seq(|entries|, i requires 0 <= i < |entries| => entries[i].0)
  }

  ghost predicate DistinctKeys(entries: Prefs)
  {
    forall i, j :: 0 <= i < j < |entries| ==> entries[i].0 != entries[j].0
  }

  /** `user_prefs.get(key)`. */
  function Lookup(entries: Prefs, key: string): Option<string>
  {
    if entries == [] then None
    else if entries[0].0 == key then Some(entries[0].1)
    else Lookup(entries[1..], key)
  }

  /** `user_prefs[key] = value`: an existing key keeps its place and takes the new value; a new
      key goes last. */
  function Assign(entries: Prefs, key: string, value: string): (r: Prefs)
  {
    if entries == [] then [(key, value)]
    else if entries[0].0 == key then [(key, value)] + entries[1..]
    else [entries[0]] + Assign(entries[1..], key, value)
  }

  lemma {:induction false} LookupAbsent(entries: Prefs, key: string)
    ensures Lookup(entries, key).None? <==> key !in Keys(entries)
  {
    if entries != [] {
      LookupAbsent(entries[1..], key);
      assert Keys(entries) == [entries[0].0] + Keys(entries[1..]);
    }
  }

  /** After the assignment `key` reads `value` and every other key reads what it read before. */
  lemma {:induction false} AssignLookup(entries: Prefs, key: string, value: string, other: string)
    ensures Lookup(Assign(entries, key, value), other)
      == if other == key then Some(value) else Lookup(entries, other)
  {
    if entries != [] && entries[0].0 != key {
      AssignLookup(entries[1..], key, value, other);
    }
  }

  /** The keys keep their insertion order; a new key is appended. */
  lemma {:induction false} AssignKeys(entries: Prefs, key: string, value: string)
    ensures Keys(Assign(entries, key, value))
      == if key in Keys(entries) then Keys(entries) else Keys(entries) + [key]
  {
    if entries != [] {
      assert Keys(entries) == [entries[0].0] + Keys(entries[1..]);
      if entries[0].0 != key {
        AssignKeys(entries[1..], key, value);
        assert Keys(Assign(entries, key, value)) == [entries[0].0] + Keys(Assign(entries[1..], key, value));
      } else {
        assert Keys(Assign(entries, key, value)) == [key] + Keys(entries[1..]);
      }
    }
  }

  /** An assignment never duplicates a key. */
  lemma AssignDistinct(entries: Prefs, key: string, value: string)
    requires DistinctKeys(entries)
    ensures DistinctKeys(Assign(entries, key, value))
  {
    var r := Assign(entries, key, value);
    AssignKeys(entries, key, value);
    forall i, j | 0 <= i < j < |r|
      ensures r[i].0 != r[j].0
    {
      assert Keys(r)[i] == r[i].0 && Keys(r)[j] == r[j].0;
      if key !in Keys(entries) && j == |entries| {
        assert Keys(r)[i] == Keys(entries)[i];
      }
    }
  }

  const NoPreferences := "No preferences stored yet."

  /** `f"{k}: {v}"`. */
  function Line(entry: (string, string)): string
  {
    entry.0 + ": " + entry.1
  }

  function Lines(entries: Prefs): (r: seq<string>)
    ensures |r| == |entries|
  {
    seq(|entries|, i requires 0 <= i < |entries| => Line(entries[i]))
  }

  /** `get_user_preferences`. */
  function Describe(entries: Prefs): string
  {
    if entries == [] then NoPreferences else Join(Lines(entries), " | ")
  }

  /** `sep.join(parts)` starts with its first part. */
  lemma {:induction false} JoinStartsWithFirst(parts: seq<string>, sep: string)
    requires |parts| > 0
    ensures |parts[0]| <= |Join(parts, sep)| && Join(parts, sep)[..|parts[0]|] == parts[0]
  {
  }

  /** The fixed reply is given exactly when the store is empty: a stored entry always puts a
      `:` into the text, and the fixed reply has none. */
  lemma DescribeEmptyIff(entries: Prefs)
    ensures Describe(entries) == NoPreferences <==> entries == []
  {
    if entries != [] {
      var d := Describe(entries);
      var first := Line(entries[0]);
      JoinStartsWithFirst(Lines(entries), " | ");
      assert d[|entries[0].0|] == first[|entries[0].0|] == ':';
      assert forall i :: 0 <= i < |NoPreferences| ==> NoPreferences[i] != ':';
    }
  }

  /** Storing a new key adds its line at the end. */
  lemma DescribeNewKey(entries: Prefs, key: string, value: string)
    requires key !in Keys(entries)
    ensures Describe(Assign(entries, key, value))
      == if entries == [] then key + ": " + value
         else Describe(entries) + " | " + key + ": " + value
  {
    AssignAppends(entries, key, value);
    assert Lines(entries + [(key, value)]) == Lines(entries) + [Line((key, value))];
    if entries != [] {
      JoinSnoc(Lines(entries), Line((key, value)), " | ");
    }
  }

  /** Assigning a key that is not there yet appends the pair. */
  lemma {:induction false} AssignAppends(entries: Prefs, key: string, value: string)
    requires key !in Keys(entries)
    ensures Assign(entries, key, value) == entries + [(key, value)]
  {
    if entries != [] {
      assert Keys(entries) == [entries[0].0] + Keys(entries[1..]);
      AssignAppends(entries[1..], key, value);
      assert entries == [entries[0]] + entries[1..];
    }
  }

  /** Overwriting a key changes its own line, in place, and no other. */
  lemma {:induction false} OverwriteLines(entries: Prefs, key: string, value: string, i: nat)
    requires i < |entries| && DistinctKeys(entries)
    ensures |Assign(entries, key, value)| >= |entries|
    ensures Lines(Assign(entries, key, value))[i]
      == if entries[i].0 == key then key + ": " + value else Lines(entries)[i]
  {
    AssignAt(entries, key, value, i);
  }

  /** With distinct keys, the assignment replaces the pair of `key` and keeps every other. */
  lemma {:induction false} AssignAt(entries: Prefs, key: string, value: string, i: nat)
    requires i < |entries| && DistinctKeys(entries)
    ensures |Assign(entries, key, value)| >= |entries|
    ensures Assign(entries, key, value)[i] == if entries[i].0 == key then (key, value) else entries[i]
  {
    if entries[0].0 == key {
      assert i > 0 ==> entries[0].0 != entries[i].0;
    } else {
      AssignLength(entries[1..], key, value);
      if i > 0 {
        assert DistinctKeys(entries[1..]) by {
          forall a, b | 0 <= a < b < |entries| - 1
            ensures entries[1..][a].0 != entries[1..][b].0
          {
            assert entries[1..][a] == entries[a + 1] && entries[1..][b] == entries[b + 1];
          }
        }
        AssignAt(entries[1..], key, value, i - 1);
      }
    }
  }

  lemma {:induction false} AssignLength(entries: Prefs, key: string, value: string)
    ensures |entries| <= |Assign(entries, key, value)| <= |entries| + 1
  {
    if entries != [] && entries[0].0 != key {
      AssignLength(entries[1..], key, value);
    }
  }

  /** `"Stored {key}={value}."`. */
  function StoredReply(key: string, value: string): string
  {
    "Stored " + key + "=" + value + "."
  }

  /** The `user_prefs` dict and its two tools. */
  class PreferenceStore {
    var entries: Prefs

    ghost predicate Valid()
      reads this
    {
      DistinctKeys(entries)
    }

    constructor ()
      ensures Valid() && entries == []
    {
      entries := [];
    }

    /** `get_user_preferences`: the fixed reply exactly when nothing is stored. */
    function GetUserPreferences(): (r: string)
      reads this
      ensures r == NoPreferences <==> entries == []
    {
      DescribeEmptyIff(entries);
      Describe(entries)
    }

    /** `set_user_preference(key, value)`. */
    method SetUserPreference(key: string, value: string) returns (r: string)
      requires Valid()
      modifies this
      ensures Valid()
      ensures entries == Assign(old(entries), key, value)
      ensures Lookup(entries, key) == Some(value)
      ensures forall other :: other != key ==> Lookup(entries, other) == Lookup(old(entries), other)
      ensures r == StoredReply(key, value)
    {
      AssignDistinct(entries, key, value);
      forall other
        ensures Lookup(Assign(entries, key, value), other)
          == if other == key then Some(value) else Lookup(entries, other)
      {
        AssignLookup(entries, key, value, other);
      }
      entries := Assign(entries, key, value);
      r := StoredReply(key, value);
    }
  }
}
