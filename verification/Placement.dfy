/** The host a machine is placed on: explicit choice, recorded host, or a hash over the known hosts. */
module Placement {
  import opened MachineIDs
  import opened Options

  // ---------- Sorted names ----------

  /** Go's string order: by the first differing character, shorter prefixes first. */
  predicate Le(a: string, b: string) {
    if a == "" then true
    else if b == "" then false
    else if a[0] != b[0] then a[0] < b[0]
    else Le(a[1..], b[1..])
  }

  lemma LeTotal(a: string, b: string)
    ensures Le(a, b) || Le(b, a)
  {
  }

  lemma {:induction false} LeAntisymmetric(a: string, b: string)
    requires Le(a, b) && Le(b, a)
    ensures a == b
  {
    if a != "" && b != "" {
      LeAntisymmetric(a[1..], b[1..]);
      assert a == [a[0]] + a[1..] && b == [b[0]] + b[1..];
    }
  }

  lemma {:induction false} LeTransitive(a: string, b: string, c: string)
    requires Le(a, b) && Le(b, c)
    ensures Le(a, c)
  {
    if a != "" && a[0] == b[0] == c[0] {
      LeTransitive(a[1..], b[1..], c[1..]);
    }
  }

  /** Comes strictly before, told from the two texts: they agree up to some position, where `a` ends or has the
      smaller character. */
  predicate Before(a: string, b: string) {
    exists k :: 0 <= k <= |a| && k < |b| && a[..k] == b[..k] && (k == |a| || a[k] < b[k])
  }

  lemma {:induction false} LeIsBefore(a: string, b: string)
    ensures Le(a, b) <==> Before(a, b) || a == b
  {
    if a == "" {
      assert b != "" ==> a[..0] == b[..0];
    } else if b != "" && a[0] != b[0] {
      assert a[0] < b[0] ==> a[..0] == b[..0];
      forall k | 0 < k <= |a| && k < |b| ensures a[..k] != b[..k] {
        assert a[..k][0] != b[..k][0];
      }
    } else if b != "" {
      LeIsBefore(a[1..], b[1..]);
      assert a == [a[0]] + a[1..] && b == [b[0]] + b[1..];
      BeforeTails(a, b);
    }
  }

  lemma BeforeTails(a: string, b: string)
    requires a != "" && b != "" && a[0] == b[0]
    ensures Before(a, b) <==> Before(a[1..], b[1..])
  {
    var a', b' := a[1..], b[1..];
    if k :| 0 <= k <= |a| && k < |b| && a[..k] == b[..k] && (k == |a| || a[k] < b[k]) {
      assert a'[..k - 1] == a[..k][1..] && b'[..k - 1] == b[..k][1..];
    }
    if k :| 0 <= k <= |a'| && k < |b'| && a'[..k] == b'[..k] && (k == |a'| || a'[k] < b'[k]) {
      assert a[..k + 1] == [a[0]] + a'[..k] && b[..k + 1] == [b[0]] + b'[..k];
    }
  }

  /** Every name is at most every later one. */
  predicate Sorted(xs: seq<string>) {
    xs == [] || ((forall y :: y in xs[1..] ==> Le(xs[0], y)) && Sorted(xs[1..]))
  }

  /** Insertion into a sorted list. */
  function Insert(x: string, xs: seq<string>): (r: seq<string>)
    ensures multiset(r) == multiset{x} + multiset(xs)
  {
    if xs == [] || Le(x, xs[0]) then [x] + xs
    else
      assert xs == [xs[0]] + xs[1..];
      [xs[0]] + Insert(x, xs[1..])
  }

  lemma {:induction false} InsertSorted(x: string, xs: seq<string>)
    requires Sorted(xs)
    ensures Sorted(Insert(x, xs))
  {
    var r := Insert(x, xs);
    if xs == [] {
    } else if Le(x, xs[0]) {
      assert r[1..] == xs;
      forall y | y in r[1..] ensures Le(x, y) {
        assert y == xs[0] || y in xs[1..];
        if y in xs[1..] { LeTransitive(x, xs[0], y); }
      }
    } else {
      LeTotal(x, xs[0]);
      InsertSorted(x, xs[1..]);
      var rest := Insert(x, xs[1..]);
      assert r[1..] == rest;
      forall y | y in rest ensures Le(xs[0], y) {
        assert y in multiset(rest);
        assert y == x || y in multiset(xs[1..]);
      }
    }
  }

  /** `sort.Strings`, by its contract: a sorted rearrangement. */
  function SortStrings(xs: seq<string>): (r: seq<string>)
    ensures multiset(r) == multiset(xs)
    ensures Sorted(r)
  {
    if xs == [] then []
    else
      assert xs == [xs[0]] + xs[1..];
      InsertSorted(xs[0], SortStrings(xs[1..]));
      Insert(xs[0], SortStrings(xs[1..]))
  }

  lemma SortedHead(xs: seq<string>, y: string)
    requires Sorted(xs) && y in multiset(xs)
    ensures Le(xs[0], y)
  {
    if y == xs[0] {
      LeTotal(y, y);
    } else {
      assert xs == [xs[0]] + xs[1..];
    }
  }

  lemma TailOf(xs: seq<string>)
    requires xs != []
    ensures xs == [xs[0]] + xs[1..]
    ensures xs[0] in multiset(xs) && multiset(xs[1..]) == multiset(xs) - multiset{xs[0]}
  {
    assert xs == [xs[0]] + xs[1..];
  }

  /** A multiset of names has one sorted listing. */
  lemma {:induction false} SortedUnique(xs: seq<string>, ys: seq<string>)
    requires Sorted(xs) && Sorted(ys) && multiset(xs) == multiset(ys)
    ensures xs == ys
  {
    assert |multiset(xs)| == |xs| && |multiset(ys)| == |ys|;
    if xs != [] {
      TailOf(xs);
      TailOf(ys);
      SortedHead(xs, ys[0]);
      SortedHead(ys, xs[0]);
      LeAntisymmetric(xs[0], ys[0]);
      SortedUnique(xs[1..], ys[1..]);
    }
  }

  // ---------- The hash choice ----------

  const TWO_31: int := 0x8000_0000
  const TWO_32: int := 0x1_0000_0000

  /** The CRC-32 of the machine name; no property depends on its value. */
  type Checksum = n: nat | n < TWO_32

  /** Go's `int(x)` of a 32-bit unsigned value, on a platform whose int has `width` bits. */
  function ToInt(x: Checksum, width: nat): int
    requires width == 32 || width == 64
  {
    if width == 32 && x >= TWO_31 then x - TWO_32 else x
  }

  /** Go's `%`, which truncates toward zero. */
  function Rem(a: int, b: int): int
    requires b > 0
  {
    if a >= 0 then a % b else -((-a) % b)
  }

  /** With 64-bit ints every checksum gives an index in range, the plain remainder. */
  lemma IndexInRange(checksum: Checksum, n: nat)
    requires n > 0
    ensures Rem(ToInt(checksum, 64), n) == checksum % n
    ensures 0 <= Rem(ToInt(checksum, 64), n) < n
  {
  }

  /** With 32-bit ints the index is negative, and the code panics, exactly for the checksums with the
      top bit set whose distance to 2^32 is not a multiple of the number of names. */
  lemma IndexInRange32(checksum: Checksum, n: nat)
    requires n > 0
    ensures 0 <= Rem(ToInt(checksum, 32), n) < n
            <==> checksum < TWO_31 || (TWO_32 - checksum) % n == 0
  {
  }

  /** Such a checksum: the largest one, with two names, gives the index -1. */
  lemma NegativeIndex32()
    ensures Rem(ToInt(0xFFFF_FFFF, 32), 2) == -1
  {
  }

  lemma {:induction false} LeastExists(names: set<string>)
    requires names != {}
    ensures exists x :: x in names && forall y :: y in names ==> Le(x, y)
  {
    hide Le;
    var x :| x in names;
    var rest := names - {x};
    LeTotal(x, x);
    if rest == {} {
      forall y | y in names ensures Le(x, y) {
        assert y !in rest;
      }
    } else {
      LeastExists(rest);
      var z :| z in rest && forall y :: y in rest ==> Le(z, y);
      LeTotal(x, z);
      if Le(z, x) {
        assert forall y :: y in names ==> Le(z, y);
      } else {
        forall y | y in names ensures Le(x, y) {
          if y != x { LeTransitive(x, z, y); }
        }
      }
    }
  }

  /** The sorted listing of a set of names: least name first. */
  function Listing(names: set<string>): (r: seq<string>)
    ensures Sorted(r) && multiset(r) == multiset(names)
    ensures |r| == |names|
    ensures forall x :: x in r <==> x in names
  {
    if names == {} then []
    else
      LeastExists(names);
      assert forall a, b :: Le(a, b) && Le(b, a) ==> a == b by {
        forall a, b | Le(a, b) && Le(b, a) ensures a == b { LeAntisymmetric(a, b); }
      }
      var x :| x in names && forall y :: y in names ==> Le(x, y);
      var r := Listing(names - {x});
      assert ([x] + r)[1..] == r;
      assert multiset(names) == multiset{x} + multiset(names - {x});
      [x] + r
  }

  /** `h` is one of the names, and as many come before it as the checksum leaves over. */
  ghost predicate HasRank(names: set<string>, checksum: Checksum, h: string) {
    h in names && |set n | n in names && Before(n, h)| == checksum % |names|
  }

  /** In a sorted list without repetitions, as many names come before a name as its position says. */
  lemma {:induction false} RankInSorted(xs: seq<string>, names: set<string>, i: nat)
    requires Sorted(xs) && multiset(xs) == multiset(names) && i < |xs|
    ensures |set n | n in names && Before(n, xs[i])| == i
  {
    hide Le, Before;
    var x, rest := xs[0], names - {xs[0]};
    TailOf(xs);
    assert x in names && multiset(rest) == multiset(names) - multiset{x};
    forall n | n in names ensures Le(x, n) {
      assert n in multiset(xs);
      SortedHead(xs, n);
    }
    var earlier := set n | n in names && Before(n, xs[i]);
    if i == 0 {
      forall n | n in names ensures !Before(n, x) { LeastIsFirst(x, n); }
      assert earlier == {};
    } else {
      RankInSorted(xs[1..], rest, i - 1);
      assert xs[i] in multiset(xs[1..]);
      assert xs[i] in rest;
      LeIsBefore(x, xs[i]);
      assert earlier == {x} + set n | n in rest && Before(n, xs[i]);
    }
  }

  lemma LeastIsFirst(x: string, n: string)
    requires Le(x, n)
    ensures !Before(n, x)
  {
    hide Le;
    LeIsBefore(n, x);
    if Before(n, x) {
      LeAntisymmetric(x, n);
      NotBeforeItself(x);
    }
  }

  lemma NotBeforeItself(x: string)
    ensures !Before(x, x)
  {
  }

  lemma BeforeTransitive(a: string, b: string, c: string)
    requires Before(a, b) && Before(b, c)
    ensures Before(a, c)
  {
    hide Le, Before;
    LeIsBefore(a, b);
    LeIsBefore(b, c);
    LeIsBefore(a, c);
    LeTransitive(a, b, c);
    if a == c { LeastIsFirst(a, b); }
  }

  lemma RanksDiffer(names: set<string>, g: string, h: string)
    requires g in names && Before(g, h)
    ensures |set n | n in names && Before(n, g)| < |set n | n in names && Before(n, h)|
  {
    hide Before;
    var fewer, more := set n | n in names && Before(n, g), set n | n in names && Before(n, h);
    forall n | n in fewer ensures n in more { BeforeTransitive(n, g, h); }
    NotBeforeItself(g);
    assert more == fewer + (more - fewer) && g in more - fewer;
  }

  /** The choice is the one name with that rank. */
  lemma ChoiceExactly(names: set<string>, checksum: Checksum, h: string)
    requires names != {}
    ensures h == HashChoice(names, checksum) <==> HasRank(names, checksum, h)
  {
    hide Sorted, Before, Le;
    var choice := HashChoice(names, checksum);
    RankInSorted(Listing(names), names, checksum % |names|);
    if HasRank(names, checksum, h) {
      LeTotal(h, choice);
      LeIsBefore(h, choice);
      LeIsBefore(choice, h);
      if Before(h, choice) { RanksDiffer(names, h, choice); }
      if Before(choice, h) { RanksDiffer(names, choice, h); }
    }
  }

  /** The fallback choice, by what it means: the name at the checksum's place in the sorted listing. */
  function HashChoice(names: set<string>, checksum: Checksum): (host: string)
    requires names != {}
    ensures host in names
  {
    Listing(names)[checksum % |names|]
  }

  /** `GetFailureDomain`: the machine's own failure domain, then the recorded host, then the hash. */
  function FailureDomain(
    machineFD: Option<string>, providerID: string, names: set<string>, checksum: Checksum): Option<string>
  {
    if machineFD.Some? && machineFD.value != "" then machineFD
    else if providerID != "" then Some(HostOf(providerID))
    else if names == {} then None
    else Some(HashChoice(names, checksum))
  }

  /**
    The fallback as the code runs it. Map iteration order is arbitrary, so each name is picked freely
    among the remaining ones; the answer does not depend on the picks.
   */
  method ChooseFailureDomain(failureDomains: map<string, bool>, checksum: Checksum)
    returns (host: Option<string>)
    ensures failureDomains == map[] ==> host == None
    ensures failureDomains != map[] ==>
              host == Some(HashChoice(failureDomains.Keys, checksum))
              && HasRank(failureDomains.Keys, checksum, host.value)
  {
    hide HasRank, Le, Insert, Listing, SortStrings;
    if failureDomains != map[] {
      ChoiceExactly(failureDomains.Keys, checksum, HashChoice(failureDomains.Keys, checksum));
    }
    var names: seq<string>, rest := [], failureDomains.Keys;
    while rest != {}
      invariant rest <= failureDomains.Keys
      invariant multiset(names) + multiset(rest) == multiset(failureDomains.Keys)
      decreases rest
    {
      var name :| name in rest;
      assert multiset(rest) == multiset(rest - {name}) + multiset{name};
      names, rest := names + [name], rest - {name};
    }
    assert |multiset(names)| == |names| && |multiset(failureDomains.Keys)| == |failureDomains.Keys|;
    if |names| == 0 {
      return None;
    }
    if |names| == 1 {
      // the shortcut agrees with the general formula: one name is sorted, and every remainder is 0
      SortedUnique(names, Listing(failureDomains.Keys));
      return Some(names[0]);
    }
    names := SortStrings(names);
    SortedUnique(names, Listing(failureDomains.Keys));
    IndexInRange(checksum, |names|);
    var pos := Rem(ToInt(checksum, 64), |names|);
    return Some(names[pos]);
  }
}
