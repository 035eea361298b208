/** Dotted names as JSON pointers. */
module Pointers {
  /** find: the index of the first '.' from p on, or the length. */
  function FindDot(s: string, p: nat): (n: nat)
    requires p <= |s|
    ensures p <= n <= |s|
    ensures n < |s| ==> s[n] == '.'
    ensures forall i | p <= i < n :: s[i] != '.'
    decreases |s| - p, s
  {
    if p == |s| || s[p] == '.' then p else FindDot(s, p + 1)
  }

  /** string_view::split at '.': what comes before the first one, and what comes after it. */
  function Split(s: string): (r: (string, string))
    ensures |r.0| <= |s| && (s != "" ==> |r.1| < |s|)
  {
    var n := FindDot(s, 0);
    (s[..n], if n == |s| then "" else s[n + 1..])
  }

  /** convert_dot_to_json_pointer, one part at a time. */
  function DotToPointer(dot: string): string
    decreases |dot|
  {
    var r := Split(dot);
    if r.1 == "" then "/" + r.0 else "/" + r.0 + DotToPointer(r.1)
  }

  /** The do-while loop over the parts. */
  method ConvertDotToJsonPointer(dot: string) returns (out: string)
    ensures out == DotToPointer(dot)
  {
    var r := Split(dot);
    out := "/" + r.0;
    while r.1 != ""
      invariant DotToPointer(dot) == Pending(out, r.1)
      decreases |r.1|
    {
      PendingStep(out, r.1);
      r := Split(r.1);
      out := out + "/" + r.0;
    }
  }

  /** What has been written, and what the rest will add to it. */
  function Pending(out: string, rest: string): string {
    if rest == "" then out else out + DotToPointer(rest)
  }

  lemma {:induction false} PendingStep(out: string, rest: string)
    requires rest != ""
    ensures Pending(out, rest) == Pending(out + "/" + Split(rest).0, Split(rest).1)
  {
    var part, more := "/" + Split(rest).0, Split(rest).1;
    assert out + "/" + Split(rest).0 == out + part;
    if more != "" {
      Associate(out, part, DotToPointer(more));
    }
  }

  lemma {:induction false} Associate(a: string, b: string, c: string)
    ensures a + (b + c) == (a + b) + c
  {
  }

  // ----- what the conversion comes to -----

  function Slashed(s: string): (r: string)
    ensures |r| == |s|
    ensures forall i | 0 <= i < |s| :: r[i] == if s[i] == '.' then '/' else s[i]
  {
    seq(|s|, i requires 0 <= i < |s| => if s[i] == '.' then '/' else s[i])
  }

  function DropFinalDot(s: string): string {
    if s != "" && s[|s| - 1] == '.' then s[..|s| - 1] else s
  }

  /** A slash, and the name with its dots turned into slashes, after dropping one final dot. */
  lemma {:induction false} PointerIsSlashed(dot: string)
    ensures DotToPointer(dot) == "/" + Slashed(DropFinalDot(dot))
    decreases |dot|
  {
    var r := Split(dot);
    if r.1 == "" {
      LastPart(dot);
    } else {
      PointerIsSlashed(r.1);
      FirstPart(dot);
      Associate("/", r.0, "/" + Slashed(DropFinalDot(r.1)));
    }
  }

  lemma {:induction false} LastPart(dot: string)
    requires Split(dot).1 == ""
    ensures Slashed(DropFinalDot(dot)) == Split(dot).0
  {
    var n := FindDot(dot, 0);
    assert DropFinalDot(dot) == dot[..n];
  }

  lemma {:induction false} FirstPart(dot: string)
    requires Split(dot).1 != ""
    ensures Slashed(DropFinalDot(dot)) == Split(dot).0 + ("/" + Slashed(DropFinalDot(Split(dot).1)))
  {
    var n, rest := FindDot(dot, 0), Split(dot).1;
    var kept := DropFinalDot(dot);
    assert rest[|rest| - 1] == dot[|dot| - 1];
    assert DropFinalDot(rest) == kept[n + 1..];
    SlashedParts(kept, n);
  }

  lemma {:induction false} SlashedParts(s: string, n: nat)
    requires n < |s| && s[n] == '.' && forall i | 0 <= i < n :: s[i] != '.'
    ensures Slashed(s) == s[..n] + ("/" + Slashed(s[n + 1..]))
  {
  }

  /** The two notations look a name up alike exactly when it has no dot. */
  lemma {:induction false} NotationsAgree(name: string)
    ensures (forall i | 0 <= i < |name| :: name[i] != '.') <==> DotToPointer(name) == "/" + name
  {
    PointerIsSlashed(name);
    var kept := DropFinalDot(name);
    if forall i | 0 <= i < |name| :: name[i] != '.' {
      assert Slashed(kept) == name;
    } else {
      var i :| 0 <= i < |name| && name[i] == '.';
      assert |kept| < |name| || Slashed(kept)[i] != name[i];
      assert |kept| == |name| ==> ("/" + Slashed(kept))[i + 1] != ("/" + name)[i + 1];
    }
  }
}
