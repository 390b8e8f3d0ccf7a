/** Splitting and joining text at a separator. */
module Text {

  /** The text before the first `c`, whether there is one, and the text after it. */
  function Partition(s: string, c: char): (string, bool, string) {
    if s == "" then ("", false, "")
    else if s[0] == c then ("", true, s[1..])
    else
      var (head, found, tail) := Partition(s[1..], c);
      ([s[0]] + head, found, tail)
  }

  function Split(s: string, c: char): (parts: seq<string>)
    ensures parts != []
  {
    if s == "" then [""]
    else
      var rest := Split(s[1..], c);
      if s[0] == c then [""] + rest else [[s[0]] + rest[0]] + rest[1..]
  }

  function Join(parts: seq<string>, c: char): string {
    if parts == [] then "" else if |parts| == 1 then parts[0] else parts[0] + [c] + Join(parts[1..], c)
  }

  lemma {:induction false} PartitionAt(head: string, c: char, tail: string)
    requires c !in head
    ensures Partition(head + [c] + tail, c) == (head, true, tail)
  {
    if head == "" {
      assert (head + [c] + tail)[1..] == tail;
    } else {
      assert (head + [c] + tail)[1..] == head[1..] + [c] + tail && head == [head[0]] + head[1..];
      PartitionAt(head[1..], c, tail);
    }
  }

  lemma {:induction false} PartitionWithout(s: string, c: char)
    requires c !in s
    ensures Partition(s, c) == (s, false, "")
  {
    if s != "" {
      PartitionWithout(s[1..], c);
      assert s == [s[0]] + s[1..];
    }
  }

  lemma {:induction false} PartitionMeans(s: string, c: char)
    ensures
      var (head, found, tail) := Partition(s, c);
      c !in head && s == head + (if found then [c] + tail else "")
  {
    if s != "" && s[0] != c {
      PartitionMeans(s[1..], c);
      var (head, found, tail) := Partition(s[1..], c);
      assert s == [s[0]] + s[1..];
    }
  }

  lemma {:induction false} SplitFirst(first: string, c: char, rest: string)
    requires c !in first
    ensures Split(first + [c] + rest, c) == [first] + Split(rest, c)
  {
    var s := first + [c] + rest;
    if first == "" {
      assert s[1..] == rest;
    } else {
      assert s[1..] == first[1..] + [c] + rest;
      SplitFirst(first[1..], c, rest);
      assert ([first[1..]] + Split(rest, c))[1..] == Split(rest, c) && first == [first[0]] + first[1..];
    }
  }

  lemma {:induction false} SplitWithout(s: string, c: char)
    requires c !in s
    ensures Split(s, c) == [s]
  {
    if s != "" {
      SplitWithout(s[1..], c);
      assert s == [s[0]] + s[1..];
    }
  }

  /** Splitting undoes joining when no part contains the separator. */
  lemma {:induction false} SplitInvertsJoin(parts: seq<string>, c: char)
    requires parts != [] && forall i :: 0 <= i < |parts| ==> c !in parts[i]
    ensures Split(Join(parts, c), c) == parts
    decreases |parts|
  {
    if |parts| == 1 {
      SplitWithout(parts[0], c);
    } else {
      SplitFirst(parts[0], c, Join(parts[1..], c));
      SplitInvertsJoin(parts[1..], c);
      assert parts == [parts[0]] + parts[1..];
    }
  }

  lemma {:induction false} JoinInvertsSplit(s: string, c: char)
    ensures Join(Split(s, c), c) == s
  {
    if s != "" {
      JoinInvertsSplit(s[1..], c);
      var rest := Split(s[1..], c);
      assert s == [s[0]] + s[1..];
      if s[0] == c {
        assert ([""] + rest)[1..] == rest;
      } else {
        var parts := [[s[0]] + rest[0]] + rest[1..];
        assert parts[1..] == rest[1..];
      }
    }
  }

  /** A character of a joined text is the separator or comes from a part. */
  lemma {:induction false} JoinedFrom(parts: seq<string>, c: char, d: char)
    requires d != c && forall i :: 0 <= i < |parts| ==> d !in parts[i]
    ensures d !in Join(parts, c)
    decreases |parts|
  {
    if |parts| > 1 { JoinedFrom(parts[1..], c, d); }
  }
}

/**
 Version parsing, printing, precedence and compatibility (adapters/contracts.py).
 The order is that of section 11 of Semantic Versioning 2.0.0.
 */
module Versions {
  import opened Common
  import opened Text

  const MAX_UINT32: nat := 0xffff_ffff

  datatype Version = Version(major: nat, minor: nat, patch: nat, pre: seq<string>, build: seq<string>)

  // ------------------------------------------------------------------- numerals

  predicate IsDigit(c: char) {
    '0' <= c <= '9'
  }

  predicate IsNumeral(s: string) {
    s != "" && forall i :: 0 <= i < |s| ==> IsDigit(s[i])
  }

  predicate NoLeadingZero(s: string) {
    |s| > 1 ==> s[0] != '0'
  }

  function Value(s: string): nat
    requires forall i :: 0 <= i < |s| ==> IsDigit(s[i])
  {
    if s == "" then 0
    else
      assert IsDigit(s[|s| - 1]);
      Value(s[..|s| - 1]) * 10 + (s[|s| - 1] as int - '0' as int)
  }

  function Show(n: nat): (s: string)
    ensures IsNumeral(s) && NoLeadingZero(s) && Value(s) == n
  {
    var digit := ('0' as int + n % 10) as char;
    if n < 10 then [digit]
    else
      var s := Show(n / 10) + [digit];
      assert s[..|s| - 1] == Show(n / 10);
      s
  }

  /** A numeral without a leading zero is the only one for its value. */
  lemma {:induction false} ShowInvertsValue(s: string)
    requires IsNumeral(s) && NoLeadingZero(s)
    ensures Show(Value(s)) == s
  {
    var front, last := s[..|s| - 1], s[|s| - 1];
    assert s == front + [last];
    if front == "" {
      assert s == [last] && s[..0] == "";
    } else {
      ShowInvertsValue(front);
      assert Value(s) / 10 == Value(front) && Value(s) % 10 == last as int - '0' as int;
      assert Show(0) == "0";
    }
  }

  // ------------------------------------------------------------------ identifiers

  predicate IsIdentifier(s: string) {
    s != "" && forall i :: 0 <= i < |s| ==> IsDigit(s[i]) || 'A' <= s[i] <= 'Z' || 'a' <= s[i] <= 'z' || s[i] == '-'
  }

  predicate IsPrerelease(s: string) {
    IsIdentifier(s) && (IsNumeral(s) ==> NoLeadingZero(s))
  }

  predicate IsComponent(s: string) {
    IsNumeral(s) && NoLeadingZero(s) && Value(s) <= MAX_UINT32
  }

  predicate Valid(v: Version) {
    && v.major <= MAX_UINT32 && v.minor <= MAX_UINT32 && v.patch <= MAX_UINT32
    && (forall i :: 0 <= i < |v.pre| ==> IsPrerelease(v.pre[i]))
    && (forall i :: 0 <= i < |v.build| ==> IsIdentifier(v.build[i]))
  }

  // ------------------------------------------------------------ parsing, printing

  function Identifiers(present: bool, text: string): seq<string> {
    if present then Split(text, '.') else []
  }

  function ParseCore(core: string): (numbers: Option<seq<nat>>)
    ensures numbers.Some? ==> |numbers.value| == 3 && forall i :: 0 <= i < 3 ==> numbers.value[i] <= MAX_UINT32
  {
    var parts := Split(core, '.');
    if |parts| != 2 && |parts| != 3 then None
    else if exists i :: 0 <= i < |parts| && !IsComponent(parts[i]) then None
    else
      assert forall i :: 0 <= i < |parts| ==> IsComponent(parts[i]);
      Some([Value(parts[0]), Value(parts[1]), if |parts| == 3 then Value(parts[2]) else 0])
  }

  function WithoutPrefix(s: string): string {
    if s != "" && (s[0] == 'v' || s[0] == 'V') then s[1..] else s
  }

  function Parse(s: string): (r: Option<Version>)
    ensures r.Some? ==> Valid(r.value)
  {
    if !Canonical(s) then None
    else
      var (front, hasBuild, buildText) := Partition(WithoutPrefix(s), '+');
      if hasBuild && (buildText == "" || '+' in buildText) then None
      else ParseFront(front, Identifiers(hasBuild, buildText))
  }

  /** The part before the build metadata. */
  function ParseFront(front: string, build: seq<string>): (r: Option<Version>)
    ensures r.Some? ==> Valid(r.value) && r.value.build == build
  {
    var (core, hasPre, preText) := Partition(front, '-');
    var numbers := ParseCore(core);
    var pre := Identifiers(hasPre, preText);
    if numbers.None? then None
    else if exists i :: 0 <= i < |pre| && !IsPrerelease(pre[i]) then None
    else if exists i :: 0 <= i < |build| && !IsIdentifier(build[i]) then None
    else Some(Version(numbers.value[0], numbers.value[1], numbers.value[2], pre, build))
  }

  function Tail(c: char, parts: seq<string>): string {
    if parts == [] then "" else [c] + Join(parts, '.')
  }

  /** The numbers of a version as text; a zero patch number may be left out. */
  function Numbers(v: Version, short: bool): seq<string> {
    if short then [Show(v.major), Show(v.minor)] else [Show(v.major), Show(v.minor), Show(v.patch)]
  }

  function Spelling(v: Version, short: bool): string {
    Join(Numbers(v, short), '.') + Tail('-', v.pre) + Tail('+', v.build)
  }

  function Print(v: Version): string {
    Spelling(v, false)
  }

  function Normalize(s: string): Option<string> {
    match Parse(s)
    case None => None
    case Some(v) => Some(Print(v))
  }

  // -------------------------------------------------------------------- round trip

  lemma NumeralChars(s: string, c: char)
    requires IsNumeral(s) && !IsDigit(c)
    ensures c !in s
  {
  }

  lemma IdentifierChars(s: string, c: char)
    requires IsIdentifier(s) && (c == '.' || c == '+')
    ensures c !in s
  {
  }

  lemma CoreChars(v: Version, short: bool, c: char)
    requires !IsDigit(c) && c != '.'
    ensures c !in Join(Numbers(v, short), '.')
  {
    var parts := Numbers(v, short);
    forall i | 0 <= i < |parts| ensures c !in parts[i] { NumeralChars(parts[i], c); }
    JoinedFrom(parts, '.', c);
  }

  lemma CoreParses(v: Version, short: bool)
    requires Valid(v) && (short ==> v.patch == 0)
    ensures ParseCore(Join(Numbers(v, short), '.')) == Some([v.major, v.minor, v.patch])
  {
    var parts := Numbers(v, short);
    forall i | 0 <= i < |parts| ensures '.' !in parts[i] { NumeralChars(parts[i], '.'); }
    SplitInvertsJoin(parts, '.');
  }

  /** A tail of identifiers is found again by partitioning. */
  lemma TailParses(head: string, c: char, parts: seq<string>)
    requires c !in head && forall i :: 0 <= i < |parts| ==> IsIdentifier(parts[i])
    ensures
      var (h, found, text) := Partition(head + Tail(c, parts), c);
      h == head && Identifiers(found, text) == parts && (found ==> text == Join(parts, '.') != "")
  {
    if parts == [] {
      assert head + Tail(c, parts) == head;
      PartitionWithout(head, c);
    } else {
      assert head + Tail(c, parts) == head + [c] + Join(parts, '.');
      PartitionAt(head, c, Join(parts, '.'));
      forall i | 0 <= i < |parts| ensures '.' !in parts[i] { IdentifierChars(parts[i], '.'); }
      SplitInvertsJoin(parts, '.');
      assert parts[0] != "";
    }
  }

  lemma FrontParses(v: Version, short: bool)
    requires Valid(v) && (short ==> v.patch == 0)
    ensures ParseFront(Join(Numbers(v, short), '.') + Tail('-', v.pre), v.build) == Some(v)
  {
    CoreChars(v, short, '-');
    TailParses(Join(Numbers(v, short), '.'), '-', v.pre);
    CoreParses(v, short);
  }

  lemma NoPlus(v: Version, short: bool)
    requires Valid(v)
    ensures '+' !in Join(Numbers(v, short), '.') + Tail('-', v.pre) && '+' !in Join(v.build, '.')
  {
    CoreChars(v, short, '+');
    forall i | 0 <= i < |v.pre| ensures '+' !in v.pre[i] { IdentifierChars(v.pre[i], '+'); }
    forall i | 0 <= i < |v.build| ensures '+' !in v.build[i] { IdentifierChars(v.build[i], '+'); }
    JoinedFrom(v.pre, '.', '+');
    JoinedFrom(v.build, '.', '+');
  }

  predicate Bounded(s: string) {
    s != "" && !IsWhitespace(s[0]) && !IsWhitespace(s[|s| - 1])
  }

  lemma BoundedIsCanonical(s: string)
    requires Bounded(s)
    ensures Canonical(s)
  {
  }

  lemma {:induction false} JoinBounded(parts: seq<string>)
    requires parts != [] && forall i :: 0 <= i < |parts| ==> Bounded(parts[i])
    ensures Bounded(Join(parts, '.'))
    decreases |parts|
  {
    if |parts| > 1 { JoinBounded(parts[1..]); }
  }

  lemma TailBounded(s: string, c: char, parts: seq<string>)
    requires Bounded(s) && forall i :: 0 <= i < |parts| ==> IsIdentifier(parts[i])
    ensures Bounded(s + Tail(c, parts))
  {
    if parts == [] {
      assert s + Tail(c, parts) == s;
    } else {
      forall i | 0 <= i < |parts| ensures Bounded(parts[i]) { IdentifierBounded(parts[i]); }
      JoinBounded(parts);
    }
  }

  lemma IdentifierBounded(s: string)
    requires IsIdentifier(s)
    ensures Bounded(s)
  {
  }

  lemma SpellingBounded(v: Version, short: bool)
    requires Valid(v)
    ensures Bounded(Spelling(v, short)) && IsDigit(Spelling(v, short)[0])
  {
    var parts := Numbers(v, short);
    var core := Join(parts, '.');
    forall i | 0 <= i < |parts| ensures Bounded(parts[i]) {
      assert IsDigit(parts[i][0]) && IsDigit(parts[i][|parts[i]| - 1]);
    }
    JoinBounded(parts);
    assert core[0] == Show(v.major)[0];
    TailBounded(core, '-', v.pre);
    TailBounded(core + Tail('-', v.pre), '+', v.build);
  }

  /** Every spelling of a version parses to it, with or without the prefix letter. */
  lemma SpellingParses(s: string, v: Version, short: bool)
    requires Valid(v) && (short ==> v.patch == 0) && WithoutPrefix(s) == Spelling(v, short)
    ensures Parse(s) == Some(v)
  {
    SpellingBounded(v, short);
    assert Bounded(s);
    BoundedIsCanonical(s);
    NoPlus(v, short);
    TailParses(Join(Numbers(v, short), '.') + Tail('-', v.pre), '+', v.build);
    FrontParses(v, short);
  }

  lemma ComponentsShown(parts: seq<string>)
    requires forall i :: 0 <= i < |parts| ==> IsComponent(parts[i])
    ensures forall i :: 0 <= i < |parts| ==> IsNumeral(parts[i]) && Show(Value(parts[i])) == parts[i]
  {
    forall i | 0 <= i < |parts| ensures Show(Value(parts[i])) == parts[i] { ShowInvertsValue(parts[i]); }
  }

  lemma CoreIsSpelled(core: string, v: Version)
    requires ParseCore(core) == Some([v.major, v.minor, v.patch])
    ensures exists short: bool :: (short ==> v.patch == 0) && core == Join(Numbers(v, short), '.')
  {
    var parts := Split(core, '.');
    JoinInvertsSplit(core, '.');
    assert forall i :: 0 <= i < |parts| ==> IsComponent(parts[i]);
    ComponentsShown(parts);
    var numbers := ParseCore(core).value;
    assert numbers[0] == v.major && numbers[1] == v.minor && numbers[2] == v.patch;
    assert parts == Numbers(v, |parts| == 2);
  }

  lemma TailIsSpelled(s: string, c: char)
    ensures
      var (head, found, text) := Partition(s, c);
      c !in head && s == head + Tail(c, Identifiers(found, text))
  {
    PartitionMeans(s, c);
    JoinInvertsSplit(Partition(s, c).2, '.');
  }

  /** Nothing else parses: an accepted text is a spelling of its version. */
  lemma ParsedIsSpelled(s: string)
    requires Parse(s).Some?
    ensures
      var v := Parse(s).value;
      exists short: bool :: (short ==> v.patch == 0) && WithoutPrefix(s) == Spelling(v, short)
  {
    var v := Parse(s).value;
    var t := WithoutPrefix(s);
    TailIsSpelled(t, '+');
    var front := Partition(t, '+').0;
    TailIsSpelled(front, '-');
    var core := Partition(front, '-').0;
    assert v.build == Identifiers(Partition(t, '+').1, Partition(t, '+').2);
    assert v.pre == Identifiers(Partition(front, '-').1, Partition(front, '-').2);
    CoreIsSpelled(core, v);
    var short: bool :| (short ==> v.patch == 0) && core == Join(Numbers(v, short), '.');
    assert t == Spelling(v, short);
  }

  /** The accepted texts and what they mean, in full. */
  lemma AcceptedTexts(s: string, v: Version)
    ensures Parse(s) == Some(v) <==>
      Valid(v) && exists short: bool :: (short ==> v.patch == 0) && WithoutPrefix(s) == Spelling(v, short)
  {
    if Parse(s) == Some(v) {
      ParsedIsSpelled(s);
    } else if Valid(v) && exists short: bool :: (short ==> v.patch == 0) && WithoutPrefix(s) == Spelling(v, short) {
      var short: bool :| (short ==> v.patch == 0) && WithoutPrefix(s) == Spelling(v, short);
      SpellingParses(s, v, short);
    }
  }

  /** Parsing undoes printing, for every version that can be parsed at all. */
  lemma ParseInvertsPrint(v: Version)
    requires Valid(v)
    ensures Parse(Print(v)) == Some(v)
  {
    SpellingBounded(v, false);
    SpellingParses(Print(v), v, false);
  }

  /** Normalizing keeps the parsed version and is idempotent. */
  lemma NormalizeKeepsVersion(s: string)
    requires Parse(s).Some?
    ensures
      var n := Normalize(s);
      n.Some? && Parse(n.value) == Parse(s) && Normalize(n.value) == n
  {
    ParseInvertsPrint(Parse(s).value);
  }

  /** Two accepted texts have the same normal form exactly when they parse alike. */
  lemma NormalFormIsComplete(s: string, t: string)
    requires Parse(s).Some? && Parse(t).Some?
    ensures Normalize(s) == Normalize(t) <==> Parse(s) == Parse(t)
  {
    NormalizeKeepsVersion(s);
    NormalizeKeepsVersion(t);
  }

  // -------------------------------------------------------------------- precedence

  /** Strict code point order. */
  predicate TextLess(a: string, b: string) {
    b != "" && (a == "" || a[0] < b[0] || (a[0] == b[0] && TextLess(a[1..], b[1..])))
  }

  /** Section 11.4.1 to 11.4.3: numbers by value, numbers below words, words in text order. */
  predicate IdLess(a: string, b: string) {
    if IsNumeral(a) != IsNumeral(b) then IsNumeral(a)
    else if IsNumeral(a) then Value(a) < Value(b)
    else TextLess(a, b)
  }

  /** The lists agree before `k` and `k` decides: the first list ends there, or its identifier is lower. */
  ghost predicate DecidedAt(p: seq<string>, q: seq<string>, k: nat) {
    && k <= |p| && k < |q| && p[..k] == q[..k]
    && (k == |p| || IdLess(p[k], q[k]))
  }

  /** A version without a prerelease is above those with one; otherwise the first difference decides. */
  ghost predicate PreLess(p: seq<string>, q: seq<string>) {
    p != [] && (q == [] || exists k :: DecidedAt(p, q, k))
  }

  ghost predicate CoreLess(v: Version, w: Version) {
    || v.major < w.major
    || (v.major == w.major && v.minor < w.minor)
    || (v.major == w.major && v.minor == w.minor && v.patch < w.patch)
  }

  ghost predicate SameCore(v: Version, w: Version) {
    v.major == w.major && v.minor == w.minor && v.patch == w.patch
  }

  ghost predicate Less(v: Version, w: Version) {
    CoreLess(v, w) || (SameCore(v, w) && PreLess(v.pre, w.pre))
  }

  ghost predicate SamePrecedence(v: Version, w: Version) {
    SameCore(v, w) && v.pre == w.pre
  }

  /** The texts agree before `k`, where the first one ends or has the lower character. */
  ghost predicate TextDecidedAt(a: string, b: string, k: nat) {
    k <= |a| && k < |b| && a[..k] == b[..k] && (k == |a| || a[k] < b[k])
  }

  lemma TextDecidedInTail(a: string, b: string, k: nat)
    requires a != "" && b != "" && a[0] == b[0]
    ensures !TextDecidedAt(a, b, 0)
    ensures TextDecidedAt(a, b, k + 1) <==> TextDecidedAt(a[1..], b[1..], k)
  {
    if k + 1 <= |a| && k + 1 < |b| {
      assert a[..k + 1] == [a[0]] + a[1..][..k] && b[..k + 1] == [b[0]] + b[1..][..k];
      assert a[..k + 1][1..] == a[1..][..k] && b[..k + 1][1..] == b[1..][..k];
    }
  }

  lemma TextDecidedLater(a: string, b: string, k: nat)
    requires TextDecidedAt(a, b, k) && k > 0
    ensures a != "" && a[0] == b[0]
  {
    assert a[..k][0] == a[0] && b[..k][0] == b[0];
  }

  /** Code point order is decided by the first difference. */
  lemma {:induction false} TextOrderIsFirstDifference(a: string, b: string)
    ensures TextLess(a, b) <==> exists k: nat :: TextDecidedAt(a, b, k)
    decreases |a|
  {
    if a == "" || b == "" || a[0] != b[0] {
      if TextLess(a, b) {
        assert TextDecidedAt(a, b, 0);
      } else if exists k: nat :: TextDecidedAt(a, b, k) {
        var k: nat :| TextDecidedAt(a, b, k);
        if k > 0 { TextDecidedLater(a, b, k); }
      }
    } else {
      TextOrderIsFirstDifference(a[1..], b[1..]);
      if TextLess(a, b) {
        var k: nat :| TextDecidedAt(a[1..], b[1..], k);
        TextDecidedInTail(a, b, k);
      } else if exists k: nat :: TextDecidedAt(a, b, k) {
        var k: nat :| TextDecidedAt(a, b, k);
        TextDecidedInTail(a, b, if k == 0 then 0 else k - 1);
      }
    }
  }

  lemma {:induction false} TextTrichotomy(a: string, b: string)
    ensures TextLess(a, b) || TextLess(b, a) <==> a != b
    ensures !(TextLess(a, b) && TextLess(b, a))
    decreases |a|
  {
    if a != "" && b != "" && a[0] == b[0] {
      TextTrichotomy(a[1..], b[1..]);
      assert a == [a[0]] + a[1..] && b == [b[0]] + b[1..];
    }
  }

  lemma {:induction false} TextTransitive(a: string, b: string, c: string)
    requires TextLess(a, b) && TextLess(b, c)
    ensures TextLess(a, c)
    decreases |a|
  {
    if a != "" && a[0] == b[0] && b[0] == c[0] { TextTransitive(a[1..], b[1..], c[1..]); }
  }

  lemma IdTrichotomy(a: string, b: string)
    requires IsPrerelease(a) && IsPrerelease(b)
    ensures IdLess(a, b) || IdLess(b, a) <==> a != b
    ensures !(IdLess(a, b) && IdLess(b, a))
  {
    if IsNumeral(a) && IsNumeral(b) {
      ShowInvertsValue(a);
      ShowInvertsValue(b);
    } else {
      TextTrichotomy(a, b);
    }
  }

  lemma IdTransitive(a: string, b: string, c: string)
    requires IdLess(a, b) && IdLess(b, c)
    ensures IdLess(a, c)
  {
    if !IsNumeral(a) && !IsNumeral(b) { TextTransitive(a, b, c); }
  }

  ghost predicate Prereleases(p: seq<string>) {
    forall i :: 0 <= i < |p| ==> IsPrerelease(p[i])
  }

  /** Where two lists first part, one of them is lower. */
  lemma {:induction false} FirstDifference(p: seq<string>, q: seq<string>, k: nat)
    requires Prereleases(p) && Prereleases(q) && k <= |p| && k <= |q| && p[..k] == q[..k] && p != q
    ensures (exists j :: DecidedAt(p, q, j)) || exists j :: DecidedAt(q, p, j)
    decreases |p| - k
  {
    assert p[..|p|] == p && q[..|q|] == q;
    if k == |p| {
      assert DecidedAt(p, q, k);
    } else if k == |q| {
      assert DecidedAt(q, p, k);
    } else if p[k] == q[k] {
      assert p[..k + 1] == p[..k] + [p[k]] && q[..k + 1] == q[..k] + [q[k]];
      FirstDifference(p, q, k + 1);
    } else {
      IdTrichotomy(p[k], q[k]);
      assert DecidedAt(p, q, k) || DecidedAt(q, p, k);
    }
  }

  lemma PrefixElement(p: seq<string>, q: seq<string>, k: nat, i: nat)
    requires i < k <= |p| && k <= |q| && p[..k] == q[..k]
    ensures p[i] == q[i] && p[..i] == q[..i]
  {
    assert p[i] == p[..k][i] && q[i] == q[..k][i];
    assert p[..i] == p[..k][..i] && q[..i] == q[..k][..i];
  }

  lemma DecidedOneWay(p: seq<string>, q: seq<string>, j: nat, k: nat)
    requires Prereleases(p) && Prereleases(q) && DecidedAt(p, q, j)
    ensures !DecidedAt(q, p, k) && p != q
  {
    if j < |p| { IdTrichotomy(p[j], q[j]); }
    if DecidedAt(q, p, k) {
      if j < k {
        PrefixElement(q, p, k, j);
      } else if k < j {
        IdTrichotomy(q[k], p[k]);
        PrefixElement(p, q, j, k);
      }
    }
  }

  lemma DecidedTransitive(p: seq<string>, q: seq<string>, r: seq<string>, j: nat, k: nat)
    requires Prereleases(p) && Prereleases(q) && Prereleases(r) && DecidedAt(p, q, j) && DecidedAt(q, r, k)
    ensures DecidedAt(p, r, if j < k then j else k)
  {
    if j < k {
      PrefixElement(q, r, k, j);
    } else if k < j {
      PrefixElement(p, q, j, k);
    } else if j < |p| {
      IdTransitive(p[j], q[j], r[j]);
    }
  }

  /** Exactly one of below, above and same precedence holds. */
  lemma PrecedenceIsTotal(v: Version, w: Version)
    requires Valid(v) && Valid(w)
    ensures Less(v, w) || Less(w, v) <==> !SamePrecedence(v, w)
    ensures !(Less(v, w) && Less(w, v))
  {
    var p, q := v.pre, w.pre;
    if SameCore(v, w) && p != q && p != [] && q != [] {
      assert p[..0] == q[..0];
      FirstDifference(p, q, 0);
    }
    if PreLess(p, q) && q != [] {
      var j :| DecidedAt(p, q, j);
      forall k: nat ensures !DecidedAt(q, p, k) { DecidedOneWay(p, q, j, k); }
      DecidedOneWay(p, q, j, 0);
    } else if PreLess(q, p) && p != [] {
      var j :| DecidedAt(q, p, j);
      DecidedOneWay(q, p, j, 0);
    }
  }

  lemma PreTransitive(p: seq<string>, q: seq<string>, r: seq<string>)
    requires Prereleases(p) && Prereleases(q) && Prereleases(r) && PreLess(p, q) && PreLess(q, r)
    ensures PreLess(p, r)
  {
    if r != [] {
      var j :| DecidedAt(p, q, j);
      var k :| DecidedAt(q, r, k);
      DecidedTransitive(p, q, r, j, k);
    }
  }

  lemma PrecedenceIsTransitive(u: Version, v: Version, w: Version)
    requires Valid(u) && Valid(v) && Valid(w) && Less(u, v) && Less(v, w)
    ensures Less(u, w)
  {
    if SameCore(u, v) && SameCore(v, w) { PreTransitive(u.pre, v.pre, w.pre); }
  }

  function Prerelease(pre: seq<string>): Version {
    Version(1, 0, 0, pre, [])
  }

  lemma DecidedLess(p: seq<string>, q: seq<string>, k: nat)
    requires p != [] && DecidedAt(p, q, k)
    ensures Less(Prerelease(p), Prerelease(q))
  {
  }

  lemma IdsOfTheStandard()
    ensures IdLess("1", "beta") && IdLess("alpha", "beta") && IdLess("2", "11") && IdLess("beta", "rc")
  {
    assert !IsNumeral("alpha") && !IsNumeral("beta") && !IsNumeral("rc") by {
      assert !IsDigit("alpha"[0]) && !IsDigit("beta"[0]) && !IsDigit("rc"[0]);
    }
    assert IsNumeral("1") && IsNumeral("2") && IsNumeral("11");
    assert Value("2") == 2 by { assert "2"[..0] == ""; }
    assert Value("11") == 11 by { assert "11"[..1] == "1" && "1"[..0] == ""; }
  }

  /** The chain of section 11.4.4: alpha, alpha.1, alpha.beta, beta, beta.2, beta.11, rc.1, and the release itself. */
  lemma ChainOfTheStandard()
    ensures Less(Prerelease(["alpha"]), Prerelease(["alpha", "1"]))
    ensures Less(Prerelease(["alpha", "1"]), Prerelease(["alpha", "beta"]))
    ensures Less(Prerelease(["alpha", "beta"]), Prerelease(["beta"]))
    ensures Less(Prerelease(["beta"]), Prerelease(["beta", "2"]))
    ensures Less(Prerelease(["beta", "2"]), Prerelease(["beta", "11"]))
    ensures Less(Prerelease(["beta", "11"]), Prerelease(["rc", "1"]))
    ensures Less(Prerelease(["rc", "1"]), Prerelease([]))
  {
    IdsOfTheStandard();
    assert ["alpha", "1"][..1] == ["alpha"][..1] == ["alpha", "beta"][..1];
    assert ["beta"][..1] == ["beta", "2"][..1] == ["beta", "11"][..1];
    DecidedLess(["alpha"], ["alpha", "1"], 1);
    DecidedLess(["alpha", "1"], ["alpha", "beta"], 1);
    DecidedLess(["alpha", "beta"], ["beta"], 0);
    DecidedLess(["beta"], ["beta", "2"], 1);
    DecidedLess(["beta", "2"], ["beta", "11"], 1);
    DecidedLess(["beta", "11"], ["rc", "1"], 0);
  }

  // ----------------------------------------------------------------- the code's loops

  /** Checks and collects the numeric components one by one. */
  method ParseComponents(core: string) returns (numbers: Option<seq<nat>>)
    ensures numbers == ParseCore(core)
  {
    var components := Split(core, '.');
    if |components| != 2 && |components| != 3 { return None; }
    var collected: seq<nat> := [];
    for i := 0 to |components|
      invariant forall j :: 0 <= j < i ==> IsComponent(components[j])
      invariant |collected| == i && forall j :: 0 <= j < i ==> collected[j] == Value(components[j])
    {
      var component := components[i];
      if !IsNumeral(component) || !NoLeadingZero(component) { return None; }
      var number := Value(component);
      if number > MAX_UINT32 { return None; }
      collected := collected + [number];
    }
    if |collected| == 2 { collected := collected + [0]; }
    assert collected == ParseCore(core).value;
    numbers := Some(collected);
  }

  method ParseVersion(value: string) returns (result: Option<Version>)
    ensures result == Parse(value)
  {
    if !Canonical(value) { return None; }
    var (front, hasBuild, buildText) := Partition(WithoutPrefix(value), '+');
    if hasBuild && (buildText == "" || '+' in buildText) { return None; }
    var (core, hasPre, preText) := Partition(front, '-');
    var numbers := ParseComponents(core);
    if numbers.None? { return None; }
    var pre, build := Identifiers(hasPre, preText), Identifiers(hasBuild, buildText);
    if exists i :: 0 <= i < |pre| && !IsPrerelease(pre[i]) { return None; }
    if exists i :: 0 <= i < |build| && !IsIdentifier(build[i]) { return None; }
    result := Some(Version(numbers.value[0], numbers.value[1], numbers.value[2], pre, build));
  }

  /** Walks both prerelease lists to the first difference. */
  method ComparePrereleases(p: seq<string>, q: seq<string>) returns (r: int)
    requires Prereleases(p) && Prereleases(q) && p != [] && q != []
    ensures r == -1 || r == 0 || r == 1
    ensures r == 0 <==> p == q
    ensures r == -1 ==> PreLess(p, q)
    ensures r == 1 ==> PreLess(q, p)
  {
    var shorter := if |p| < |q| then |p| else |q|;
    for i := 0 to shorter
      invariant p[..i] == q[..i]
    {
      var a, b := p[i], q[i];
      if a == b {
        assert p[..i + 1] == p[..i] + [a] && q[..i + 1] == q[..i] + [b];
      } else {
        IdTrichotomy(a, b);
        assert DecidedAt(p, q, i) || DecidedAt(q, p, i);
        if IsNumeral(a) != IsNumeral(b) { return if IsNumeral(a) then -1 else 1; }
        if IsNumeral(a) { return if Value(a) < Value(b) then -1 else 1; }
        return if TextLess(a, b) then -1 else 1;
      }
    }
    assert p[..|p|] == p && q[..|q|] == q;
    if |p| == |q| { return 0; }
    assert DecidedAt(p, q, shorter) || DecidedAt(q, p, shorter);
    r := if |p| < |q| then -1 else 1;
  }

  method CompareVersions(v: Version, w: Version) returns (r: int)
    requires Valid(v) && Valid(w)
    ensures r == -1 || r == 0 || r == 1
    ensures r == -1 <==> Less(v, w)
    ensures r == 0 <==> SamePrecedence(v, w)
    ensures r == 1 <==> Less(w, v)
  {
    PrecedenceIsTotal(v, w);
    if v.major != w.major || v.minor != w.minor || v.patch != w.patch {
      return
        if v.major < w.major || (v.major == w.major && (v.minor < w.minor || (v.minor == w.minor && v.patch < w.patch)))
        then -1 else 1;
    }
    if v.pre == [] || w.pre == [] {
      if v.pre == [] && w.pre == [] { return 0; }
      return if v.pre == [] then 1 else -1;
    }
    r := ComparePrereleases(v.pre, w.pre);
  }

  // ------------------------------------------------------------------ compatibility

  ghost predicate Compatible(current: Version, required: Version) {
    && current.major == required.major
    && !Less(current, required)
    && (current.major == 0 ==> current.minor == required.minor)
  }

  /** What the compatibility question answers for two texts; no answer when either is rejected. */
  ghost function CompatibleTexts(current: string, required: string): Option<bool> {
    Answer(Parse(current), Parse(required))
  }

  ghost function Answer(current: Option<Version>, required: Option<Version>): Option<bool> {
    if current.Some? && required.Some? then Some(Compatible(current.value, required.value)) else None
  }

  method VersionsCompatible(current: string, required: string) returns (result: Option<bool>)
    ensures result == CompatibleTexts(current, required)
  {
    var c := ParseVersion(current);
    if c.None? { return None; }
    var r := ParseVersion(required);
    if r.None? { return None; }
    if c.value.major != r.value.major { return Some(false); }
    var order := CompareVersions(c.value, r.value);
    if order < 0 { return Some(false); }
    if c.value.major == 0 { return Some(c.value.minor == r.value.minor); }
    result := Some(true);
  }

  lemma NotLessTransitive(u: Version, v: Version, w: Version)
    requires Valid(u) && Valid(v) && Valid(w) && !Less(u, v) && !Less(v, w)
    ensures !Less(u, w)
  {
    PrecedenceIsTotal(u, v);
    PrecedenceIsTotal(v, w);
    if Less(u, w) {
      if Less(v, u) { PrecedenceIsTransitive(v, u, w); }
    }
  }

  /** Compatibility is a preorder, and mutual compatibility is equal precedence. */
  lemma CompatibleIsPreorder(u: Version, v: Version, w: Version)
    requires Valid(u) && Valid(v) && Valid(w)
    ensures Compatible(u, u)
    ensures Compatible(u, v) && Compatible(v, w) ==> Compatible(u, w)
    ensures Compatible(u, v) && Compatible(v, u) <==> SamePrecedence(u, v)
  {
    PrecedenceIsTotal(u, u);
    PrecedenceIsTotal(u, v);
    if Compatible(u, v) && Compatible(v, w) { NotLessTransitive(u, v, w); }
  }

  /** Everything between a compatible pair is compatible with both ends. */
  lemma CompatibleIsConvex(current: Version, middle: Version, required: Version)
    requires Valid(current) && Valid(middle) && Valid(required)
    requires Compatible(current, required) && !Less(middle, required) && !Less(current, middle)
    ensures Compatible(middle, required) && Compatible(current, middle)
  {
    PrecedenceIsTotal(middle, required);
    PrecedenceIsTotal(current, middle);
  }

  /** The least version that is too new for a requirement: its next minor version if the major one is zero, and
      otherwise its next major version, prereleases included. */
  function TooNew(required: Version): Version {
    if required.major == 0 then Version(0, required.minor + 1, 0, ["0"], [])
    else Version(required.major + 1, 0, 0, ["0"], [])
  }

  lemma NothingBelowZero(p: seq<string>)
    requires Prereleases(p)
    ensures !PreLess(p, ["0"])
  {
    assert Value("0") == 0 by { assert "0"[..0] == ""; }
    assert IsNumeral("0");
    forall k: nat ensures !DecidedAt(p, ["0"], k) || p == [] {
      if p != [] && IsNumeral(p[0]) { assert Value(p[0]) >= 0; }
    }
  }

  /** In terms of precedence alone: the versions compatible with a requirement are those from it up to the least version
      that is too new. */
  lemma CompatibleIsInterval(current: Version, required: Version)
    requires Valid(current) && Valid(required)
    ensures Compatible(current, required) <==> !Less(current, required) && Less(current, TooNew(required))
  {
    NothingBelowZero(current.pre);
  }

  ghost predicate SameUpToBuild(a: Option<Version>, b: Option<Version>) {
    a == b || (a.Some? && b.Some? && SamePrecedence(a.value, b.value))
  }

  /** Build metadata does not matter. */
  lemma AnswerIgnoresBuild(a: Option<Version>, a': Option<Version>, b: Option<Version>, b': Option<Version>)
    requires SameUpToBuild(a, a') && SameUpToBuild(b, b')
    ensures Answer(a, b) == Answer(a', b')
  {
  }

  lemma CompatibilityOfNormalForms(s: string, t: string)
    requires Parse(s).Some? && Parse(t).Some?
    ensures CompatibleTexts(Normalize(s).value, t) == CompatibleTexts(s, t)
    ensures CompatibleTexts(s, Normalize(t).value) == CompatibleTexts(s, t)
  {
    NormalizeKeepsVersion(s);
    NormalizeKeepsVersion(t);
  }

  /** Accepted texts that agree up to the first plus sign answer every question alike. */
  lemma BuildTextIsIgnored(s: string, s': string, t: string)
    requires Parse(s).Some? && Parse(s').Some? && Partition(s, '+').0 == Partition(s', '+').0
    ensures CompatibleTexts(s, t) == CompatibleTexts(s', t) && CompatibleTexts(t, s) == CompatibleTexts(t, s')
  {
    FrontDecides(s, s');
    AnswerIgnoresBuild(Parse(s), Parse(s'), Parse(t), Parse(t));
    AnswerIgnoresBuild(Parse(t), Parse(t), Parse(s), Parse(s'));
  }

  lemma FrontDecides(s: string, s': string)
    requires Parse(s).Some? && Parse(s').Some? && Partition(s, '+').0 == Partition(s', '+').0
    ensures SameUpToBuild(Parse(s), Parse(s'))
  {
    PrefixThenPartition(s);
    PrefixThenPartition(s');
  }

  lemma PrefixThenPartition(s: string)
    ensures Partition(WithoutPrefix(s), '+').0 == WithoutPrefix(Partition(s, '+').0)
  {
  }

  // ------------------------------------------------------------------ end to end

  function Release(major: nat, minor: nat, patch: nat): string {
    Show(major) + "." + Show(minor) + "." + Show(patch)
  }

  lemma ReleaseIsPrinted(major: nat, minor: nat, patch: nat)
    ensures Print(Version(major, minor, patch, [], [])) == Release(major, minor, patch)
  {
    var numbers := [Show(major), Show(minor), Show(patch)];
    assert numbers[1..] == [Show(minor), Show(patch)] && numbers[1..][1..] == [Show(patch)];
    assert Join([Show(patch)], '.') == Show(patch);
    assert Join(numbers[1..], '.') == Show(minor) + "." + Show(patch);
    assert Join(numbers, '.') == Show(major) + ['.'] + Join(numbers[1..], '.');
    assert Join(numbers, '.') == Release(major, minor, patch);
  }

  lemma ReleaseParses(major: nat, minor: nat, patch: nat)
    requires major <= MAX_UINT32 && minor <= MAX_UINT32 && patch <= MAX_UINT32
    ensures Parse(Release(major, minor, patch)) == Some(Version(major, minor, patch, [], []))
  {
    ReleaseIsPrinted(major, minor, patch);
    ParseInvertsPrint(Version(major, minor, patch, [], []));
  }

  lemma CompatibleNumbers(v: Version, w: Version)
    requires v.pre == [] && w.pre == []
    ensures
      Compatible(v, w) <==>
        && v.major == w.major && (v.major == 0 ==> v.minor == w.minor)
        && (v.minor > w.minor || (v.minor == w.minor && v.patch >= w.patch))
  {
  }

  /** The answer for released versions, from their texts: the same major number, the same minor number if the major one
      is zero, and not lower. */
  lemma CompatibleReleases(a: nat, b: nat, c: nat, d: nat, e: nat, f: nat)
    requires a <= MAX_UINT32 && b <= MAX_UINT32 && c <= MAX_UINT32
    requires d <= MAX_UINT32 && e <= MAX_UINT32 && f <= MAX_UINT32
    ensures
      CompatibleTexts(Release(a, b, c), Release(d, e, f)) ==
      Some(a == d && (a == 0 ==> b == e) && (b > e || (b == e && c >= f)))
  {
    ReleaseParses(a, b, c);
    ReleaseParses(d, e, f);
    CompatibleNumbers(Version(a, b, c, [], []), Version(d, e, f, [], []));
  }

  /** A version text may be written with a letter v in front, in either case. */
  lemma PrefixIsOptional(s: string)
    requires Parse(s).Some? && s[0] != 'v' && s[0] != 'V'
    ensures Parse("v" + s) == Parse("V" + s) == Parse(s)
  {
    CanonicalMeans(s);
    CanonicalMeans("v" + s);
    CanonicalMeans("V" + s);
    assert ("v" + s)[1..] == s && ("V" + s)[1..] == s;
    assert WithoutPrefix("v" + s) == s && WithoutPrefix("V" + s) == s && WithoutPrefix(s) == s;
  }
}
