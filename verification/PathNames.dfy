/** Path names and their components, for the '/' separator. */
module PathNames {
  import opened Base

  /** `size_t`, and `npos`, its largest value. */
  const NPOS: nat := 0xFFFF_FFFF_FFFF_FFFF

  /** `a + b` on `size_t`, where `b` may be the negative of one. */
  function Add64(a: int, b: int): nat
    requires 0 <= a + b + TWO64 && a + b < 2 * TWO64
  {
    if a + b < 0 then a + b + TWO64 else if a + b >= TWO64 then a + b - TWO64 else a + b
  }

  // The members of `std::string` that the code calls

  function Find(s: string, c: char, from: nat): (k: nat)
    requires |s| < NPOS
    ensures k != NPOS ==> from <= k < |s| && s[k] == c && c !in s[from..k]
    ensures k == NPOS && from <= |s| ==> c !in s[from..]
    decreases |s| - from
  {
    if from >= |s| then NPOS else if s[from] == c then from else Find(s, c, from + 1)
  }

  function RFind(s: string, c: char, from: nat): (k: nat)
    requires |s| < NPOS
    ensures k != NPOS ==> k <= from && k < |s| && s[k] == c && c !in s[k + 1..Min(from + 1, |s|)]
    ensures k == NPOS ==> c !in s[..Min(from + 1, |s|)]
  {
    if |s| == 0 then NPOS
    else if from >= |s| then RFind(s, c, |s| - 1)
    else if s[from] == c then from
    else if from == 0 then NPOS
    else RFind(s, c, from - 1)
  }

  function Substr(s: string, at: nat, count: nat): string
    requires at <= |s|
  {
    s[at..Min(at + count, |s|)]
  }

  // ---------------------------------------------------------------------
  // What the components of a path are

  predicate Slashless(s: string) {
    '/' !in s
  }

  /** The first separator, or the end. */
  function Cut(s: string): (k: nat)
    ensures k <= |s| && Slashless(s[..k]) && (k < |s| ==> s[k] == '/')
  {
    if s == "" || s[0] == '/' then 0
    else
      var k := Cut(s[1..]);
      assert s[..k + 1] == [s[0]] + s[1..][..k];
      k + 1
  }

  function Split(s: string): (parts: seq<string>)
    ensures parts != []
    decreases |s|
  {
    var k := Cut(s);
    if k == |s| then [s] else [s[..k]] + Split(s[k + 1..])
  }

  function Join(parts: seq<string>): string
    requires parts != []
  {
    if |parts| == 1 then parts[0] else parts[0] + "/" + Join(parts[1..])
  }

  lemma {:induction false} CutIsUnique(s: string, k: nat)
    requires k <= |s| && Slashless(s[..k]) && (k < |s| ==> s[k] == '/')
    ensures Cut(s) == k
    decreases k
  {
    if k > 0 {
      assert s[..k][0] == s[0];
      assert s[1..][..k - 1] == s[..k][1..];
      CutIsUnique(s[1..], k - 1);
    }
  }

  lemma {:induction false} CutIsFirst(s: string, k: nat)
    requires k < |s| && s[k] == '/'
    ensures Cut(s) <= k
    decreases k
  {
    if k > 0 {
      CutIsFirst(s[1..], k - 1);
    }
  }

  lemma SplitAt(s: string, k: nat)
    requires k < |s| && Slashless(s[..k]) && s[k] == '/'
    ensures Split(s) == [s[..k]] + Split(s[k + 1..])
  {
    CutIsUnique(s, k);
  }

  lemma SplitNone(s: string)
    requires Slashless(s)
    ensures Split(s) == [s]
  {
    CutIsUnique(s, |s|);
  }

  /** Splitting loses nothing and leaves no separator inside a part. */
  lemma {:induction false} SplitThenJoin(s: string)
    ensures Join(Split(s)) == s
    ensures forall i :: 0 <= i < |Split(s)| ==> Slashless(Split(s)[i])
    decreases |s|
  {
    hide Cut, Slashless, Join;
    var k := Cut(s);
    if k == |s| {
      assert s[..k] == s;
      JoinOne(s);
    } else {
      SplitThenJoin(s[k + 1..]);
      JoinMore(s[..k], Split(s[k + 1..]));
      assert s == s[..k] + "/" + s[k + 1..];
    }
  }

  lemma JoinOne(s: string)
    ensures Join([s]) == s
  {
  }

  lemma JoinMore(first: string, rest: seq<string>)
    requires rest != []
    ensures Join([first] + rest) == first + "/" + Join(rest)
  {
    assert ([first] + rest)[1..] == rest;
  }

  /** Where the pieces of two joined texts are. */
  lemma JoinedAt(a: string, b: string, k: nat)
    requires k <= |a|
    ensures (a + "/" + b)[..k] == a[..k] && |a + "/" + b| == |a| + 1 + |b|
    ensures (a + "/" + b)[k] == if k == |a| then '/' else a[k]
    ensures (a + "/" + b)[k + 1..] == if k == |a| then b else a[k + 1..] + "/" + b
  {
  }

  /** The parts are the only ones with that property. */
  lemma {:induction false} JoinThenSplit(parts: seq<string>)
    requires parts != [] && forall i :: 0 <= i < |parts| ==> Slashless(parts[i])
    ensures Split(Join(parts)) == parts
    decreases |parts|
  {
    hide Split, Cut, Slashless, Join;
    var first, rest := parts[0], parts[1..];
    assert parts == [first] + rest;
    if rest == [] {
      assert parts == [first];
      JoinOne(first);
      SplitNone(first);
    } else {
      JoinThenSplit(rest);
      JoinMore(first, rest);
      JoinedAt(first, Join(rest), |first|);
      assert first[..|first|] == first;
      SplitAt(Join(parts), |first|);
    }
  }

  lemma {:induction false} SplitConcat(a: string, b: string)
    ensures Split(a + "/" + b) == Split(a) + Split(b)
    decreases |a|
  {
    hide Slashless, Cut;
    var k := Cut(a);
    JoinedAt(a, b, k);
    SplitAt(a + "/" + b, k);
    if k == |a| {
      assert a[..k] == a;
    } else {
      SplitConcat(a[k + 1..], b);
      SplitStep(a, k, b);
    }
  }

  lemma SplitStep(a: string, k: nat, b: string)
    requires k == Cut(a) < |a|
    ensures [a[..k]] + (Split(a[k + 1..]) + Split(b)) == Split(a) + Split(b)
  {
  }

  lemma TailOfTail(s: string, c: nat, k: nat)
    requires c < k <= |s|
    ensures s[c + 1..][k - c - 1..] == s[k..]
    ensures k - c - 1 > 0 ==> s[c + 1..][k - c - 2] == s[k - 1]
  {
  }

  lemma LastOfMore(s: string)
    requires Cut(s) < |s|
    ensures var rest := Split(s[Cut(s) + 1..]); Split(s)[|Split(s)| - 1] == rest[|rest| - 1]
  {
  }

  lemma {:induction false} LastPart(s: string, k: nat)
    requires k <= |s| && Slashless(s[k..]) && (k > 0 ==> s[k - 1] == '/')
    ensures Split(s)[|Split(s)| - 1] == s[k..]
    decreases |s|
  {
    hide Slashless, Cut, Split;
    if k == 0 {
      assert s[k..] == s;
      SplitNone(s);
    } else {
      var c := Cut(s);
      CutIsFirst(s, k - 1);
      TailOfTail(s, c, k);
      LastPart(s[c + 1..], k - c - 1);
      LastOfMore(s);
    }
  }

  /** Where the last component ends: before a separator at the end of the name. */
  function Stop(name: string): nat
    requires |name| >= 1
  {
    if name[|name| - 1] == '/' then |name| - 1 else |name|
  }

  /** The name without one separator at either end. */
  function Strip(name: string): string
    requires |name| >= 2
  {
    name[(if name[0] == '/' then 1 else 0)..Stop(name)]
  }

  function Components(name: string): seq<string> {
    if |name| < 2 then [] else Split(Strip(name))
  }

  /** The components behind a component that ends at `e`. */
  function Behind(name: string, e: nat): seq<string>
    requires e <= |name|
  {
    if e == |name| || e == |name| - 1 then [] else Split(name[e + 1..Stop(name)])
  }

  // ---------------------------------------------------------------------
  // The iterator

  class Iterator {
    const path: string
    var atEnd: bool
    var posStart: nat
    var posEnd: nat

    predicate Valid()
      reads this
    {
      && |path| < NPOS && posEnd <= |path| && posStart <= NPOS
      && (!atEnd ==>
            && Add64(posStart, 1) <= posEnd
            && (posEnd < |path| ==> path[posEnd] == '/'))
    }

    /** `*it`, when there is something to point at. */
    function Current(): string
      requires Valid() && !atEnd
      reads this
    {
      Substr(path, Add64(posStart, 1), Add64(Add64(posEnd, 0 - posStart), 0 - 1))
    }

    /** The components still to come, the current one first. */
    function Left(): seq<string>
      requires Valid()
      reads this
    {
      if atEnd then [] else [Current()] + Behind(path, posEnd)
    }

    constructor (name: string)
      requires |name| < NPOS
      ensures Valid() && path == name
      ensures Left() == Components(name)
    {
      path := name;
      atEnd, posStart, posEnd := false, NPOS, 0;
      new;
      Next();
    }

    /** `next()`: from the separator at `posStart`, or from the beginning. */
    method Next()
      requires |path| < NPOS && posEnd <= |path| && !atEnd
      requires (posStart == NPOS && posEnd == 0) || (posStart == posEnd && (posEnd < |path| ==> path[posEnd] == '/'))
      modifies this
      ensures Valid()
      ensures Left() == if old(posStart) == NPOS then Components(path) else Behind(path, old(posEnd))
    {
      hide Split, Find, Cut, Strip;
      var size := |path|;
      if posEnd == size || posEnd == Add64(size, 0 - 1) {
        atEnd := true;
        return;
      }
      FirstPart(path, posStart);
      var delim := Find(path, '/', Add64(posStart, 1));
      if delim == 0 {
        posStart := Add64(posStart, 1);
        delim := Find(path, '/', Add64(posStart, 1));
      }
      ghost var from := Add64(posStart, 1);
      if delim == NPOS {
        posEnd := size;
        NoMoreParts(path, from);
        CurrentPart(path, posStart, posEnd);
        assert path[from..posEnd] == path[from..] && Current() == path[from..];
        assert [path[from..]] + [] == [path[from..]];
      } else {
        posEnd := delim;
        OneMorePart(path, from, delim);
        CurrentPart(path, posStart, posEnd);
        assert Left() == Split(path[from..Stop(path)]);
      }
    }

    /** `++it`. */
    method Advance()
      requires Valid() && !atEnd
      modifies this
      ensures Valid()
      ensures Left() == old(Left())[1..]
    {
      posStart := posEnd;
      Next();
    }
  }

  /** A separator at the very beginning is passed over, and only that one. */
  lemma FirstPart(path: string, posStart: nat)
    requires 2 <= |path| < NPOS && (posStart == NPOS || posStart < |path| - 1)
    ensures Find(path, '/', Add64(posStart, 1)) == 0 <==> posStart == NPOS && path[0] == '/'
    ensures posStart == NPOS ==>
              Components(path) == Split(path[(if path[0] == '/' then 1 else 0)..Stop(path)])
  {
  }

  /** The text between two positions, as the iterator cuts it out. */
  lemma CurrentPart(path: string, posStart: nat, posEnd: nat)
    requires posEnd <= |path| < NPOS && (posStart == NPOS || posStart < posEnd)
    ensures Add64(posStart, 1) <= posEnd
    ensures Substr(path, Add64(posStart, 1), Add64(Add64(posEnd, 0 - posStart), 0 - 1))
         == path[Add64(posStart, 1)..posEnd]
  {
  }

  lemma NoMoreParts(path: string, from: nat)
    requires 2 <= |path| && from < |path| && Slashless(path[from..])
    ensures Stop(path) == |path| && Split(path[from..Stop(path)]) == [path[from..]]
  {
    assert path[from..][|path| - 1 - from] == path[|path| - 1];
    SplitNone(path[from..]);
    assert path[from..|path|] == path[from..];
  }

  lemma PartsOfSlice(s: string, from: nat, k: nat, to: nat)
    requires from <= k < to <= |s|
    ensures s[from..to][..k - from] == s[from..k]
    ensures s[from..to][k - from] == s[k] && s[from..to][k - from + 1..] == s[k + 1..to]
  {
  }

  lemma OneMorePart(path: string, from: nat, delim: nat)
    requires 2 <= |path| && from <= delim < |path| && path[delim] == '/' && Slashless(path[from..delim])
    ensures Split(path[from..Stop(path)]) == [path[from..delim]] + Behind(path, delim)
  {
    hide Slashless, Split, Cut;
    if delim == |path| - 1 {
      SplitNone(path[from..Stop(path)]);
      assert Split(path[from..delim]) == [path[from..delim]] + [];
    } else {
      PartsOfSlice(path, from, delim, Stop(path));
      SplitAt(path[from..Stop(path)], delim - from);
    }
  }

  // ---------------------------------------------------------------------
  // Joining

  /** `operator+`. */
  function Plus(p: string, q: string): string {
    if |p| < 1 then q
    else if |q| < 1 then q
    else
      var end := |p| - 1;
      var delim1, delim2 := p[end] == '/', q[0] == '/';
      var start := if delim1 && delim2 then p[..end] else if !delim1 && !delim2 then p + "/" else p;
      start + q
  }

  class Path {
    var name: string

    constructor (name: string)
      ensures this.name == name
    {
      this.name := name;
    }

    /**
     `operator+=`, which looks at the ends of both names without asking whether
     there are any; behind a constant empty name it finds NUL.
     */
    method Append(q: string)
      requires name != ""
      modifies this
      ensures q != "" ==> name == Plus(old(name), q)
      ensures q == "" ==> name == old(name)[..Stop(old(name))] + "/"
      ensures name == Plus(old(name), q) <==> q != ""
    {
      var end := |name| - 1;
      var delim1, delim2 := name[end] == '/', (if q == "" then '\0' else q[0]) == '/';
      if delim1 && delim2 {
        name := name[..end];
      } else if !delim1 && !delim2 {
        name := name + "/";
      }
      name := name + q;
    }
  }

  /** A name of a single character that is not the separator. */
  predicate Lone(s: string) {
    |s| == 1 && s[0] != '/'
  }

  /** When joining two names joins their components. */
  predicate JoinsWell(p: string, q: string) {
    if p == "" then true else if q == "" then |p| < 2 else !Lone(p) && !Lone(q)
  }

  function Front(p: string): string
    requires p != ""
  {
    p[..Stop(p)]
  }

  function Rear(q: string): string
    requires q != ""
  {
    q[(if q[0] == '/' then 1 else 0)..]
  }

  /** Whatever separators the two names bring, exactly one stands between them. */
  lemma PlusShape(p: string, q: string)
    requires p != "" && q != ""
    ensures Plus(p, q) == Front(p) + "/" + Rear(q)
  {
    if p[|p| - 1] == '/' {
      assert p == Front(p) + "/";
    } else {
      assert p == Front(p);
    }
    if q[0] == '/' {
      assert q == "/" + Rear(q);
    } else {
      assert q == Rear(q);
    }
  }

  /** The text without a separator at the end, and without one at the beginning. */
  lemma FrontAndRear(s: string)
    requires |s| >= 2
    ensures Strip(s) == Front(s)[(if s[0] == '/' then 1 else 0)..]
    ensures Strip(s) == Rear(s)[..Stop(s) - (if s[0] == '/' then 1 else 0)]
  {
  }

  lemma PlusEnds(p: string, q: string)
    requires |p| >= 2 && |q| >= 2
    ensures var s := Plus(p, q);
            |s| == |Front(p)| + 1 + |Rear(q)| && s[0] == p[0] && s[|s| - 1] == q[|q| - 1]
  {
    PlusShape(p, q);
  }

  lemma MiddleSlice(a: string, b: string, i: nat, j: nat)
    requires i <= |a| && j <= |b|
    ensures (a + "/" + b)[i..|a| + 1 + j] == a[i..] + "/" + b[..j]
  {
  }

  lemma StripPlus(p: string, q: string)
    requires |p| >= 2 && |q| >= 2
    ensures |Plus(p, q)| >= 2 && Strip(Plus(p, q)) == Strip(p) + "/" + Strip(q)
  {
    hide Plus;
    PlusShape(p, q);
    PlusEnds(p, q);
    FrontAndRear(p);
    FrontAndRear(q);
    var i, j := if p[0] == '/' then 1 else 0, Stop(q) - (if q[0] == '/' then 1 else 0);
    MiddleSlice(Front(p), Rear(q), i, j);
  }

  /** Joining long names joins their components. */
  lemma LongNamesJoin(p: string, q: string)
    requires |p| >= 2 && |q| >= 2
    ensures Components(Plus(p, q)) == Components(p) + Components(q)
  {
    StripPlus(p, q);
    SplitConcat(Strip(p), Strip(q));
  }

  lemma SlashFirst(q: string)
    requires q != "" && !Lone(q)
    ensures Components(Plus("/", q)) == Components(q)
  {
    PlusShape("/", q);
    var s := Plus("/", q);
    assert s == "/" + Rear(q);
    if |q| >= 2 {
      assert Strip(s) == Strip(q);
    }
  }

  lemma SlashLast(p: string)
    requires |p| >= 2
    ensures Components(Plus(p, "/")) == Components(p)
  {
    PlusShape(p, "/");
    var s := Plus(p, "/");
    assert s == Front(p) + "/";
    if |s| >= 2 {
      assert Strip(s) == Strip(p);
    }
  }

  /** A component more than there were. */
  lemma LoneNamesGetLost(p: string, q: string)
    requires p != "" && q != "" && (Lone(p) || Lone(q))
    ensures |Components(Plus(p, q))| > |Components(p)| + |Components(q)|
  {
    PlusShape(p, q);
    var s := Plus(p, q);
    var lead := if s[0] == '/' then 1 else 0;
    if |p| >= 2 {
      assert Strip(s) == Strip(p) + "/" + q by {
        assert s == Front(p) + "/" + q;
        assert Front(p)[lead..] == Strip(p);
        assert s[lead..] == Front(p)[lead..] + "/" + q;
      }
      SplitConcat(Strip(p), q);
    } else if |q| >= 2 {
      assert Strip(s) == p + "/" + Strip(q) by {
        assert s == p + "/" + Rear(q);
        assert Rear(q)[..Stop(q) - (if q[0] == '/' then 1 else 0)] == Strip(q);
      }
      SplitConcat(p, Strip(q));
    }
  }

  /** For all names: joining them joins their components exactly when `JoinsWell`. */
  lemma JoinIsHomomorphism(p: string, q: string)
    ensures Components(Plus(p, q)) == Components(p) + Components(q) <==> JoinsWell(p, q)
  {
    if p == "" || q == "" {
    } else if Lone(p) || Lone(q) {
      LoneNamesGetLost(p, q);
    } else if |p| == 1 {
      assert p == "/";
      SlashFirst(q);
    } else if |q| == 1 {
      assert q == "/";
      SlashLast(p);
    } else {
      LongNamesJoin(p, q);
    }
  }

  // ---------------------------------------------------------------------
  // Directory and base name

  function DirName(name: string): string
    requires |name| < NPOS
  {
    var end := Add64(|name|, 0 - 1);
    var delim0 := RFind(name, '/', NPOS);
    var delim := if delim0 == end then RFind(name, '/', Add64(end, 0 - 1)) else delim0;
    if delim == NPOS then "" else Substr(name, 0, Add64(delim, 1))
  }

  function BaseName(name: string): string
    requires |name| < NPOS
  {
    var end0 := Add64(|name|, 0 - 1);
    var delim0 := RFind(name, '/', NPOS);
    var end := if delim0 == end0 then Add64(end0, 0 - 1) else end0;
    var delim := if delim0 == end0 then RFind(name, '/', end) else delim0;
    if delim == NPOS then Substr(name, 0, Add64(end, 1))
    else Substr(name, Add64(delim, 1), Add64(end, 0 - delim))
  }

  /** The place that `dir_name` and `base_name` look for. */
  function LastDelim(name: string): (d: nat)
    requires 2 <= |name| < NPOS
    ensures d == NPOS || d < |name| - 1
  {
    LastCharacter(name);
    var d0 := RFind(name, '/', NPOS);
    if d0 == |name| - 1 then RFind(name, '/', |name| - 2) else d0
  }

  function AfterDelim(name: string): (k: nat)
    requires 2 <= |name| < NPOS
    ensures k <= |name| - 1 && k <= Stop(name)
  {
    if LastDelim(name) == NPOS then 0 else LastDelim(name) + 1
  }

  lemma DirNameAt(name: string)
    requires 2 <= |name| < NPOS
    ensures DirName(name) == name[..AfterDelim(name)]
  {
    LastCharacter(name);
    hide RFind;
  }

  lemma Minus64(a: nat, b: nat)
    requires b <= a < NPOS
    ensures Add64(a, 0 - b) == a - b && Add64(a - b, 1) == a - b + 1 && Add64(b, 1) == b + 1
  {
  }

  lemma BaseNameAt(name: string)
    requires 2 <= |name| < NPOS
    ensures BaseName(name) == name[AfterDelim(name)..Stop(name)]
  {
    LastCharacter(name);
    var d := LastDelim(name);
    Minus64(|name|, 1);
    Minus64(|name| - 1, 1);
    if d != NPOS {
      Minus64(Stop(name) - 1, d);
    }
    hide RFind, Add64;
  }

  lemma LastCharacter(name: string)
    requires 1 <= |name| < NPOS
    ensures RFind(name, '/', NPOS) == |name| - 1 <==> name[|name| - 1] == '/'
    ensures RFind(name, '/', NPOS) == RFind(name, '/', |name| - 1)
  {
  }

  /** Where the base name begins: behind the last separator that does not end the name. */
  lemma BaseBegins(name: string) returns (k: nat)
    requires 2 <= |name| < NPOS
    ensures k <= Stop(name) && Slashless(name[k..Stop(name)]) && (k > 0 ==> name[k - 1] == '/')
    ensures name[0] == '/' ==> k > 0
    ensures BaseName(name) == name[k..Stop(name)] && DirName(name) == name[..k]
  {
    hide RFind, BaseName, DirName;
    LastCharacter(name);
    k := AfterDelim(name);
    DirNameAt(name);
    BaseNameAt(name);
    assert name[..Stop(name)][0] == name[0];
  }

  lemma TailOfStrip(name: string, k: nat)
    requires 2 <= |name| && k <= Stop(name) && (name[0] == '/' ==> k > 0)
    ensures var i := if name[0] == '/' then 1 else 0;
            i <= k && k - i <= |Strip(name)| && Strip(name)[k - i..] == name[k..Stop(name)] &&
            (k > i ==> Strip(name)[k - i - 1] == name[k - 1])
  {
  }

  lemma LastOfStrip(name: string, k: nat)
    requires 2 <= |name| && k <= Stop(name) && Slashless(name[k..Stop(name)])
    requires (k > 0 ==> name[k - 1] == '/') && (name[0] == '/' ==> k > 0)
    ensures var c := Split(Strip(name)); c[|c| - 1] == name[k..Stop(name)]
  {
    hide Split, Slashless, Strip, Stop, Cut;
    TailOfStrip(name, k);
    LastPart(Strip(name), k - if name[0] == '/' then 1 else 0);
  }

  /** The last component is the base name. */
  lemma BaseNameIsLast(name: string)
    requires 2 <= |name| < NPOS
    ensures var c := Components(name); c != [] && c[|c| - 1] == BaseName(name)
  {
    var k := BaseBegins(name);
    hide BaseName, Split, Slashless, Strip, Stop, Cut;
    LastOfStrip(name, k);
  }

  /** The separator at the end, if there is one. */
  function Tail(name: string): string {
    if name == "" then "" else name[Stop(name)..]
  }

  lemma LongDirAndBase(name: string)
    requires 2 <= |name| < NPOS
    ensures DirName(name) + BaseName(name) + Tail(name) == name
  {
    hide BaseName, DirName;
    var k := BaseBegins(name);
  }

  lemma ShortDirAndBase(name: string)
    requires |name| <= 1
    ensures name != "/" ==> DirName(name) == "" && BaseName(name) == name
    ensures name == "/" ==> DirName(name) == "/" && BaseName(name) == ""
  {
    hide Slashless;
    if name != "" {
      LastCharacter(name);
    }
  }

  /**
   Directory name, base name and a separator at the end, if there was one, make
   up the name, except that a lone separator is found at both ends.
   */
  lemma DirAndBase(name: string)
    requires |name| < NPOS
    ensures DirName(name) + BaseName(name) + Tail(name) == name <==> name != "/"
  {
    hide BaseName, DirName;
    if |name| >= 2 {
      LongDirAndBase(name);
    } else {
      ShortDirAndBase(name);
    }
  }

  /** The components with a separator between each two, and the ones at the ends, make up the name. */
  lemma ComponentsMakeName(name: string)
    requires |name| >= 2
    ensures Components(name) != []
    ensures (if name[0] == '/' then "/" else "") + Join(Components(name)) + Tail(name) == name
    ensures forall i :: 0 <= i < |Components(name)| ==> Slashless(Components(name)[i])
    ensures Tail(name) == if name[|name| - 1] == '/' then "/" else ""
  {
    hide Split, Join, Slashless;
    SplitThenJoin(Strip(name));
  }

  // ---------------------------------------------------------------------
  // Comparing

  /** The components before the first one that is called like the end iterator. */
  function UpToNull(parts: seq<string>): seq<string> {
    if parts == [] || parts[0] == "NULL" then [] else [parts[0]] + UpToNull(parts[1..])
  }

  predicate NoNull(parts: seq<string>) {
    forall i :: 0 <= i < |parts| ==> parts[i] != "NULL"
  }

  lemma {:induction false} NothingCut(parts: seq<string>)
    requires NoNull(parts)
    ensures UpToNull(parts) == parts
  {
    if parts != [] {
      NothingCut(parts[1..]);
    }
  }

  /** `it == end()`: at the end, or at a component that looks like it. */
  function IsEnd(parts: seq<string>): bool {
    parts == [] || parts[0] == "NULL"
  }

  /** `operator==` of two paths, on their iterators. */
  method Equal(p: string, q: string) returns (equal: bool)
    requires |p| < NPOS && |q| < NPOS
    ensures equal <==> UpToNull(Components(p)) == UpToNull(Components(q))
  {
    hide Components, Split, Substr, Behind;
    var it1 := new Iterator(p);
    var it2 := new Iterator(q);
    var end1 := it1.atEnd || it1.Current() == "NULL";
    var end2 := it2.atEnd || it2.Current() == "NULL";
    while !end1 && !end2
      invariant it1 != it2 && it1.Valid() && it2.Valid()
      invariant end1 == IsEnd(it1.Left()) && end2 == IsEnd(it2.Left())
      invariant UpToNull(Components(p)) == UpToNull(Components(q))
           <==> UpToNull(it1.Left()) == UpToNull(it2.Left())
      decreases |it1.Left()|
    {
      ghost var l1, l2 := it1.Left(), it2.Left();
      HeadsAndTails(l1, l2);
      if it1.Current() != it2.Current() {
        return false;
      }
      it1.Advance();
      it2.Advance();
      end1 := it1.atEnd || it1.Current() == "NULL";
      end2 := it2.atEnd || it2.Current() == "NULL";
    }
    return end1 && end2;
  }

  lemma HeadsAndTails(a: seq<string>, b: seq<string>)
    requires !IsEnd(a) && !IsEnd(b)
    ensures UpToNull(a) == UpToNull(b) <==> a[0] == b[0] && UpToNull(a[1..]) == UpToNull(b[1..])
  {
    assert UpToNull(a)[0] == a[0] && UpToNull(a)[1..] == UpToNull(a[1..]);
    assert UpToNull(b)[0] == b[0] && UpToNull(b)[1..] == UpToNull(b[1..]);
  }

  /** What stands behind the components that a comparison looks at. */
  function FromNull(parts: seq<string>): (rest: seq<string>)
    ensures UpToNull(parts) + rest == parts
    ensures NoNull(parts) <==> rest == []
  {
    if parts == [] then []
    else if parts[0] == "NULL" then parts
    else
      var rest := FromNull(parts[1..]);
      NoNullTail(parts);
      rest
  }

  lemma NoNullTail(parts: seq<string>)
    requires parts != [] && parts[0] != "NULL"
    ensures NoNull(parts) <==> NoNull(parts[1..])
  {
    if NoNull(parts[1..]) {
      forall i | 0 <= i < |parts|
        ensures parts[i] != "NULL"
      {
        assert i > 0 ==> parts[i] == parts[1..][i - 1];
      }
    }
  }

  /**
   Equal components are what a comparison sees and the same components from the
   first one called NULL on; so where there is none, the comparison is exact.
   */
  lemma EqualityIsOfComponents(p: string, q: string)
    ensures var same := UpToNull(Components(p)) == UpToNull(Components(q));
            && (Components(p) == Components(q) <==> same && FromNull(Components(p)) == FromNull(Components(q)))
            && (NoNull(Components(p)) && NoNull(Components(q)) ==> (same <==> Components(p) == Components(q)))
  {
    hide Components, UpToNull, FromNull;
    var a, b := Components(p), Components(q);
    assert a == UpToNull(a) + FromNull(a) && b == UpToNull(b) + FromNull(b);
  }

  lemma {:induction false} NullEnds(parts: seq<string>)
    ensures UpToNull(parts + ["NULL"]) == UpToNull(parts)
  {
    if parts != [] {
      assert (parts + ["NULL"])[1..] == parts[1..] + ["NULL"];
      NullEnds(parts[1..]);
    }
  }

  /** Every path compares equal to the longer one with a component called NULL behind it. */
  lemma NullIsInvisible(p: string)
    requires |p| >= 2
    ensures var q := Plus(p, "NULL");
            UpToNull(Components(p)) == UpToNull(Components(q)) && Components(q) == Components(p) + ["NULL"]
  {
    hide Split;
    LongNamesJoin(p, "NULL");
    assert Strip("NULL") == "NULL";
    SplitNone("NULL");
    NullEnds(Components(p));
  }
}
