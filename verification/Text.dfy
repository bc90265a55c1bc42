/** `split` and `join` on one separator character. */
module Text {

  function IndexOf(s: string, d: char): (r: nat)
    ensures r <= |s|
    ensures d !in s[..r]
    ensures r < |s| ==> s[r] == d
  {
    if s == [] || s[0] == d then 0
    else
      var r := 1 + IndexOf(s[1..], d);
      assert s[..r] == [s[0]] + s[1..][..r - 1];
      r
  }

  function Split(s: string, d: char): (r: seq<string>)
    ensures r != []
    decreases |s|
  {
    var i := IndexOf(s, d);
    if i == |s| then [s] else [s[..i]] + Split(s[i + 1..], d)
  }

  function Join(parts: seq<string>, d: char): string {
    if parts == [] then ""
    else if |parts| == 1 then parts[0]
    else parts[0] + [d] + Join(parts[1..], d)
  }

  lemma IndexOfAppended(s: string, t: string, d: char)
    requires d !in s
    ensures IndexOf(s + [d] + t, d) == |s|
  {
    var r := IndexOf(s + [d] + t, d);
    var all := s + [d] + t;
    assert all[|s|] == d;
    assert forall i :: 0 <= i < |s| ==> all[i] == s[i];
  }

  /** Splitting undoes joining exactly when no part contains the separator. */
  lemma {:induction false} SplitJoin(parts: seq<string>, d: char)
    requires parts != [] && forall p :: p in parts ==> d !in p
    ensures Split(Join(parts, d), d) == parts
  {
    if |parts| == 1 {
      assert parts[0] in parts;
    } else {
      var rest := Join(parts[1..], d);
      assert parts[0] in parts && forall p :: p in parts[1..] ==> p in parts;
      IndexOfAppended(parts[0], rest, d);
      var all := parts[0] + [d] + rest;
      assert all[..|parts[0]|] == parts[0] && all[|parts[0]| + 1..] == rest;
      SplitJoin(parts[1..], d);
    }
  }

  lemma {:induction false} SplitParts(s: string, d: char)
    ensures forall p :: p in Split(s, d) ==> d !in p
    ensures Join(Split(s, d), d) == s
    decreases |s|
  {
    var i := IndexOf(s, d);
    if i >= |s| {
    } else {
      SplitParts(s[i + 1..], d);
      assert s == s[..i] + [d] + s[i + 1..];
    }
  }
}
