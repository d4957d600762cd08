/** String helpers: .NET's string.Join, and the searches the parsers beside
    the formatter use to take a rendering apart again. */
module Text {
  import opened Wrappers

  /** string.Join(sep, parts): the parts in order, with sep between neighbours.
      A non-empty join begins with the first part and is exactly as long as the
      parts plus one separator per gap. */
  function Join(sep: string, parts: seq<string>): (s: string)
    ensures |parts| > 0 ==> |s| == TotalLength(parts) + (|parts| - 1) * |sep|
    ensures |parts| > 0 ==> s[..|parts[0]|] == parts[0]
  {
    if |parts| == 0 then ""
    else if |parts| == 1 then parts[0]
    else parts[0] + sep + Join(sep, parts[1..])
  }

  function TotalLength(parts: seq<string>): nat {
    if parts == [] then 0 else |parts[0]| + TotalLength(parts[1..])
  }

  /** Joining one more part adds exactly the separator and that part at the end. */
  lemma {:induction false} JoinAppend(sep: string, parts: seq<string>, p: string)
    requires |parts| > 0
    ensures Join(sep, parts + [p]) == Join(sep, parts) + sep + p
    decreases |parts|
  {
    if |parts| == 1 {
      assert (parts + [p])[1..] == [p];
    } else {
      assert (parts + [p])[1..] == parts[1..] + [p];
      JoinAppend(sep, parts[1..], p);
    }
  }

  /** Index of the first c in s. */
  function IndexOf(s: string, c: char): (r: Option<nat>)
    ensures r.Some? ==> r.value < |s| && s[r.value] == c && c !in s[..r.value]
    ensures r.None? <==> c !in s
  {
    if s == [] then None
    else if s[0] == c then Some(0)
    else match IndexOf(s[1..], c)
      case None => None
      case Some(i) => assert s[..i + 1] == [s[0]] + s[1..][..i]; Some(i + 1)
  }

  /** Index of the last c in s. */
  function LastIndexOf(s: string, c: char): (r: Option<nat>)
    ensures r.Some? ==> r.value < |s| && s[r.value] == c && c !in s[r.value + 1..]
    ensures r.None? <==> c !in s
  {
    if s == [] then None
    else if s[|s| - 1] == c then Some(|s| - 1)
    else
      var r := LastIndexOf(s[..|s| - 1], c);
      if r.Some? then assert s[r.value + 1..] == s[..|s| - 1][r.value + 1..] + [s[|s| - 1]]; r
      else r
  }

  /** Splits s around its first c. */
  function Cut(s: string, c: char): Option<(string, string)> {
    match IndexOf(s, c)
    case None => None
    case Some(i) => Some((s[..i], s[i + 1..]))
  }

  /** A c placed after a c-free prefix is the first c. */
  lemma {:induction false} IndexAt(u: string, c: char, t: string)
    requires c !in u
    ensures IndexOf(u + [c] + t, c) == Some(|u|)
    decreases |u|
  {
    if u != [] {
      assert (u + [c] + t)[1..] == u[1..] + [c] + t;
      IndexAt(u[1..], c, t);
    }
  }

  /** The search for the first c never passes a c. */
  lemma {:induction false} IndexNotPast(s: string, c: char, j: nat)
    requires j < |s| && s[j] == c
    ensures IndexOf(s, c).Some? && IndexOf(s, c).value <= j
    decreases j
  {
    if s[0] != c {
      assert s[1..][j - 1] == c;
      IndexNotPast(s[1..], c, j - 1);
    }
  }

  lemma CutAt(u: string, c: char, t: string)
    requires c !in u
    ensures Cut(u + [c] + t, c) == Some((u, t))
  {
    var s := u + [c] + t;
    IndexAt(u, c, t);
    assert s[..|u|] == u && s[|u| + 1..] == t;
  }

  /** A c placed before a c-free suffix is the last c. */
  lemma {:induction false} LastIndexAt(u: string, c: char, t: string)
    requires c !in t
    ensures LastIndexOf(u + [c] + t, c) == Some(|u|)
    decreases |t|
  {
    if t != [] {
      var s := u + [c] + t;
      assert s[..|s| - 1] == u + [c] + t[..|t| - 1];
      LastIndexAt(u, c, t[..|t| - 1]);
    }
  }
}
