/**
 * String operations used to compose statement text: `string.Join`, and the scanning
 * functions (first occurrence, split, occurrence count) that read the text back.
 */
module CqlText {
  import opened Results

  /** `string.Join(sep, parts)`: the parts with `sep` between neighbours; "" for no parts. */
  function Join(sep: string, parts: seq<string>): string
    decreases |parts|
  {
    if |parts| == 0 then ""
    else if |parts| == 1 then parts[0]
    else parts[0] + sep + Join(sep, parts[1..])
  }

  /** Position of the first `c` in `s`, if any. */
  function IndexOf(s: string, c: char): (r: Option<nat>)
    ensures r.Some? ==> r.value < |s| && s[r.value] == c && c !in s[..r.value]
    ensures r.None? <==> c !in s
  {
    if |s| == 0 then None
    else if s[0] == c then Some(0)
    else
      match IndexOf(s[1..], c)
      case None => None
      case Some(i) =>
        assert s[..i + 1] == [s[0]] + s[1..][..i];
        Some(i + 1)
  }

  /** Splits `s` at `sep` into the text before the first `sep` and the text from it on. */
  function SplitAt(s: string, sep: char): (r: Option<(string, string)>)
    ensures r.Some? ==>
      && r.value.0 + r.value.1 == s && sep !in r.value.0
      && |r.value.1| > 0 && r.value.1[0] == sep
    ensures r.None? <==> sep !in s
  {
    match IndexOf(s, sep)
    case None => None
    case Some(i) => Some((s[..i], s[i..]))
  }

  /** `s` without the leading `prefix`, if it begins with it. */
  function StripPrefix(s: string, prefix: string): (r: Option<string>)
    ensures r.Some? <==> prefix <= s
    ensures r.Some? ==> prefix + r.value == s
  {
    if prefix <= s then Some(s[|prefix|..]) else None
  }

  /** The fields of `s` between occurrences of `sep` (at least one field). */
  function Fields(s: string, sep: char): (r: seq<string>)
    ensures |r| >= 1
    decreases |s|
  {
    match IndexOf(s, sep)
    case None => [s]
    case Some(i) => [s[..i]] + Fields(s[i + 1..], sep)
  }

  /** `Fields`, except that the empty text has no fields, matching `Join` of no parts. */
  function Split(s: string, sep: char): seq<string>
  {
    if s == "" then [] else Fields(s, sep)
  }

  /** Number of occurrences of `c` in `s`. */
  function Occurrences(c: char, s: string): nat
  {
    if s == "" then 0 else (if s[0] == c then 1 else 0) + Occurrences(c, s[1..])
  }

  /** `n` positional placeholders. */
  function Placeholders(n: nat): (r: seq<string>)
    ensures |r| == n && forall i :: 0 <= i < n ==> r[i] == "?"
  {
    seq(n, _ => "?")
  }

  /** A CQL unquoted-identifier character. */
  predicate IdentChar(ch: char)
  {
    ('a' <= ch <= 'z') || ('A' <= ch <= 'Z') || ('0' <= ch <= '9') || ch == '_'
  }

  /** A non-empty unquoted identifier: the shape of table and column names. */
  predicate IsIdentifier(s: string)
  {
    |s| > 0 && forall i :: 0 <= i < |s| ==> IdentChar(s[i])
  }

  lemma IdentifierExcludes(s: string, c: char)
    requires IsIdentifier(s) && !IdentChar(c)
    ensures c !in s
  {
  }

  // ---------------------------------------------------------------------------
  // Lemmas
  // ---------------------------------------------------------------------------

  /** `SplitAt` finds the separator exactly at the end of a separator-free prefix. */
  lemma SplitAtPrefix(a: string, sep: char, b: string)
    requires sep !in a && |b| > 0 && b[0] == sep
    ensures SplitAt(a + b, sep) == Some((a, b))
  {
    var s := a + b;
    assert s[|a|] == sep;
    assert s[..|a|] == a && s[|a|..] == b;
  }

  /** A character neither in the separator nor in any part is not in the joined text. */
  lemma {:induction false} NotInJoin(c: char, sep: string, parts: seq<string>)
    requires c !in sep && forall i :: 0 <= i < |parts| ==> c !in parts[i]
    ensures c !in Join(sep, parts)
    decreases |parts|
  {
    if |parts| > 1 {
      NotInJoin(c, sep, parts[1..]);
    }
  }

  /** Splitting the join of non-empty, separator-free parts gives the parts back. */
  lemma {:induction false} SplitJoin(parts: seq<string>, sep: char)
    requires forall i :: 0 <= i < |parts| ==> parts[i] != "" && sep !in parts[i]
    ensures Split(Join([sep], parts), sep) == parts
    decreases |parts|
  {
    if |parts| == 1 {
      assert Join([sep], parts) == parts[0];
    } else if |parts| > 1 {
      var rest := Join([sep], parts[1..]);
      var s := Join([sep], parts);
      assert s == parts[0] + ([sep] + rest);
      SplitAtPrefix(parts[0], sep, [sep] + rest);
      assert IndexOf(s, sep) == Some(|parts[0]|);
      assert s[|parts[0]| + 1..] == rest;
      SplitJoin(parts[1..], sep);
      assert parts[1..][0] == parts[1];
      assert rest != "";
      assert Fields(s, sep) == [parts[0]] + Fields(rest, sep);
    }
  }

  lemma {:induction false} OccurrencesAppend(c: char, a: string, b: string)
    ensures Occurrences(c, a + b) == Occurrences(c, a) + Occurrences(c, b)
    decreases |a|
  {
    if a != "" {
      assert (a + b)[1..] == a[1..] + b;
      OccurrencesAppend(c, a[1..], b);
    } else {
      assert a + b == b;
    }
  }

  lemma {:induction false} OccurrencesAbsent(c: char, s: string)
    requires c !in s
    ensures Occurrences(c, s) == 0
    decreases |s|
  {
    if s != "" {
      OccurrencesAbsent(c, s[1..]);
    }
  }

  /** `n` placeholders joined by commas carry exactly `n` question marks. */
  lemma {:induction false} PlaceholderCount(n: nat)
    ensures Occurrences('?', Join(",", Placeholders(n))) == n
    decreases n
  {
    if n == 1 {
      assert Join(",", Placeholders(1)) == "?";
    } else if n > 1 {
      assert Placeholders(n)[1..] == Placeholders(n - 1);
      PlaceholderCount(n - 1);
      OccurrencesAppend('?', "?", "," + Join(",", Placeholders(n - 1)));
      OccurrencesAppend('?', ",", Join(",", Placeholders(n - 1)));
      assert "?" + "," + Join(",", Placeholders(n - 1)) == "?" + ("," + Join(",", Placeholders(n - 1)));
    }
  }
}
