/** Small value types and string helpers shared by the models. */
module Common {

  datatype Option<+T> = None | Some(value: T)

  datatype Result<+T, +E> = Ok(value: T) | Err(error: E)

  /** The characters that Python's `str.strip()` removes. */
  predicate IsWhitespace(c: char) {
    var n := c as int;
    || 0x09 <= n <= 0x0d || 0x1c <= n <= 0x20 || n == 0x85 || n == 0xa0 || n == 0x1680
    || 0x2000 <= n <= 0x200a || n == 0x2028 || n == 0x2029 || n == 0x202f || n == 0x205f || n == 0x3000
  }

  function StripLeft(s: string): string {
    if s != [] && IsWhitespace(s[0]) then StripLeft(s[1..]) else s
  }

  function StripRight(s: string): string {
    if s != [] && IsWhitespace(s[|s| - 1]) then StripRight(s[..|s| - 1]) else s
  }

  function Strip(s: string): string {
    StripRight(StripLeft(s))
  }

  /** Nonempty and without surrounding whitespace. */
  predicate Canonical(s: string) {
    s != "" && s == Strip(s)
  }

  /** Nothing but whitespace. */
  predicate Blank(s: string) {
    forall i :: 0 <= i < |s| ==> IsWhitespace(s[i])
  }

  lemma {:induction false} StripLeftMeans(s: string)
    ensures StripLeft(s) == "" <==> Blank(s)
    ensures |StripLeft(s)| <= |s| && s[|s| - |StripLeft(s)|..] == StripLeft(s)
    ensures StripLeft(s) != "" ==> !IsWhitespace(StripLeft(s)[0])
  {
    if s != "" && IsWhitespace(s[0]) {
      StripLeftMeans(s[1..]);
      assert forall i :: 1 <= i < |s| ==> s[i] == s[1..][i - 1];
    }
  }

  lemma {:induction false} StripRightMeans(s: string)
    ensures StripRight(s) == "" <==> Blank(s)
    ensures |StripRight(s)| <= |s| && s[..|StripRight(s)|] == StripRight(s)
    ensures StripRight(s) != "" ==> !IsWhitespace(StripRight(s)[|StripRight(s)| - 1])
    decreases |s|
  {
    if s != "" && IsWhitespace(s[|s| - 1]) { StripRightMeans(s[..|s| - 1]); }
  }

  /** Stripping leaves nothing exactly of blank text, and otherwise something without whitespace at its ends. */
  lemma StripMeans(s: string)
    ensures Strip(s) == "" <==> Blank(s)
    ensures Strip(s) != "" ==> !IsWhitespace(Strip(s)[0]) && !IsWhitespace(Strip(s)[|Strip(s)| - 1])
  {
    StripLeftMeans(s);
    StripRightMeans(StripLeft(s));
    var t := StripLeft(s);
    if t != "" {
      assert !Blank(t);
      assert StripRight(t)[0] == t[..|StripRight(t)|][0];
    }
  }

  /** A text is canonical exactly when it has a first and a last character that are not whitespace. */
  lemma CanonicalMeans(s: string)
    ensures Canonical(s) <==> s != "" && !IsWhitespace(s[0]) && !IsWhitespace(s[|s| - 1])
  {
    StripMeans(s);
  }

  ghost predicate NoDuplicates<T>(s: seq<T>) {
    forall i, j :: 0 <= i < j < |s| ==> s[i] != s[j]
  }
}

/** Runs of a deterministic machine: `Run(step, s, es)` is the state after the events `es`. */
module Runs {

  function Run<S, E>(step: (S, E) -> S, s: S, es: seq<E>): S {
    if es == [] then s else step(Run(step, s, es[..|es| - 1]), es[|es| - 1])
  }

  lemma {:induction false} RunConcat<S, E>(step: (S, E) -> S, s: S, es: seq<E>, fs: seq<E>)
    ensures Run(step, s, es + fs) == Run(step, Run(step, s, es), fs)
    decreases |fs|
  {
    if fs == [] {
      assert es + fs == es;
    } else {
      assert (es + fs)[..|es + fs| - 1] == es + fs[..|fs| - 1];
      RunConcat(step, s, es, fs[..|fs| - 1]);
    }
  }

  lemma RunOne<S, E>(step: (S, E) -> S, s: S, a: E)
    ensures Run(step, s, [a]) == step(s, a)
  {
    assert [a][..0] == [];
  }

  lemma RunTwo<S, E>(step: (S, E) -> S, s: S, a: E, b: E)
    ensures Run(step, s, [a, b]) == step(step(s, a), b)
  {
    assert [a, b] == [a] + [b];
    RunConcat(step, s, [a], [b]);
    RunOne(step, s, a);
    RunOne(step, step(s, a), b);
  }

  lemma RunFive<S, E>(step: (S, E) -> S, s: S, a: E, b: E, c: E, d: E, e: E)
    ensures Run(step, s, [a, b, c, d, e]) == step(step(step(step(step(s, a), b), c), d), e)
  {
    assert [a, b, c, d, e] == [a, b] + [c, d] + [e];
    RunTwo(step, s, a, b);
    RunTwo(step, Run(step, s, [a, b]), c, d);
    RunConcat(step, s, [a, b], [c, d]);
    RunConcat(step, s, [a, b] + [c, d], [e]);
    RunOne(step, Run(step, s, [a, b] + [c, d]), e);
  }

  function Flatten<E>(pieces: seq<seq<E>>): seq<E> {
    if pieces == [] then [] else Flatten(pieces[..|pieces| - 1]) + pieces[|pieces| - 1]
  }

  /** A run in pieces, with the states between them. */
  lemma {:induction false} RunPieces<S, E>(step: (S, E) -> S, pieces: seq<seq<E>>, states: seq<S>)
    requires |states| == |pieces| + 1
    requires forall i :: 0 <= i < |pieces| ==> Run(step, states[i], pieces[i]) == states[i + 1]
    ensures Run(step, states[0], Flatten(pieces)) == states[|pieces|]
    decreases |pieces|
  {
    if pieces != [] {
      var n := |pieces| - 1;
      RunPieces(step, pieces[..n], states[..n + 1]);
      RunConcat(step, states[0], Flatten(pieces[..n]), pieces[n]);
    }
  }
}
