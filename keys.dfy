/**
 * Primary keys: an entity's identifier is stored behind a fixed prefix and a
 * `#` (`"EXAM#" + id`, `"ECG_EXAM#" + id`, `"USER#" + email`) and recovered
 * with Python's `pk.split("#")[1]`.
 */
module Keys {
  import opened Wrappers

  /** Glue `parts` back together with `sep` between neighbours (`sep.join`). */
  function Join(parts: seq<string>, sep: char): string
    requires |parts| >= 1
  {
    if |parts| == 1 then parts[0] else parts[0] + [sep] + Join(parts[1..], sep)
  }

  /** Python's `s.split(sep)` for a one-character separator: the maximal runs
      between separators, empty runs included. */
  function Split(s: string, sep: char): (parts: seq<string>)
    ensures |parts| >= 1
    ensures forall i :: 0 <= i < |parts| ==> sep !in parts[i]
    ensures Join(parts, sep) == s
    decreases |s|
  {
    if |s| == 0 then [""]
    else
      var rest := Split(s[1..], sep);
      if s[0] == sep then
        assert ([""] + rest)[1..] == rest;
        [""] + rest
      else
        var parts := [[s[0]] + rest[0]] + rest[1..];
        assert parts[1..] == rest[1..];
        assert |rest| > 1 ==> Join(rest, sep) == rest[0] + [sep] + Join(rest[1..], sep);
        assert s == [s[0]] + s[1..];
        parts
  }

  /** `key.split(sep)[1]`, or None where Python raises IndexError. */
  function SecondField(key: string, sep: char): (r: Option<string>)
    ensures r.None? <==> sep !in key
  {
    var parts := Split(key, sep);
    if |parts| > 1 then Some(parts[1]) else None
  }

  /** The part of `s` before its first `sep` (all of `s` when there is none). */
  function FirstField(s: string, sep: char): (r: string)
    ensures sep !in r
    ensures |r| <= |s| && r == s[..|r|]
  {
    var parts := Split(s, sep);
    SplitHead(s, sep);
    parts[0]
  }

  lemma {:induction false} SplitHead(s: string, sep: char)
    ensures |Split(s, sep)[0]| <= |s| && Split(s, sep)[0] == s[..|Split(s, sep)[0]|]
  {
    var parts := Split(s, sep);
    if |parts| > 1 {
      assert s == parts[0] + [sep] + Join(parts[1..], sep);
    }
  }

  /** A string without the separator splits into itself alone. */
  lemma {:induction false} SplitWithoutSeparator(s: string, sep: char)
    requires sep !in s
    ensures Split(s, sep) == [s]
    decreases |s|
  {
    if |s| > 0 {
      assert s[0] != sep;
      SplitWithoutSeparator(s[1..], sep);
    }
  }

  /** A separator-free prefix becomes the first field and the rest is split on. */
  lemma {:induction false} SplitAfterPrefix(prefix: string, rest: string, sep: char)
    requires sep !in prefix
    ensures Split(prefix + [sep] + rest, sep) == [prefix] + Split(rest, sep)
    decreases |prefix|
  {
    var s := prefix + [sep] + rest;
    if |prefix| == 0 {
      assert s == [sep] + rest;
      assert s[1..] == rest;
    } else {
      assert s[1..] == prefix[1..] + [sep] + rest;
      SplitAfterPrefix(prefix[1..], rest, sep);
      assert prefix == [prefix[0]] + prefix[1..];
    }
  }

  /** Decoding a key built as `prefix + "#" + id` yields the part of `id`
      before its first `#`. */
  lemma KeyRecovery(prefix: string, id: string, sep: char)
    requires sep !in prefix
    ensures SecondField(prefix + [sep] + id, sep) == Some(FirstField(id, sep))
  {
    SplitAfterPrefix(prefix, id, sep);
  }

  /** ... which is `id` itself exactly when `id` holds no `#`. */
  lemma FirstFieldIsWhole(id: string, sep: char)
    ensures FirstField(id, sep) == id <==> sep !in id
  {
    if sep !in id {
      SplitWithoutSeparator(id, sep);
    }
  }
}
