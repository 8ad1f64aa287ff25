/** The stateless writer history as the manager sees it: the changes it holds, each under
    the sequence number the history gave it when the change was added. */
module WriterHistory {
  import opened SecurityTypes

  /** Sequence numbers are assigned 1, 2, ... and never twice. */
  ghost predicate WellFormed(h: seq<CacheChange>, last: nat)
  {
    && (forall i | 0 <= i < |h| :: 1 <= h[i].sequenceNumber <= last)
    && (forall i, j | 0 <= i < j < |h| :: h[i].sequenceNumber != h[j].sequenceNumber)
  }

  /** remove_change(sequenceNumber): the history without the change of that number. */
  function Without(h: seq<CacheChange>, s: nat): (r: seq<CacheChange>)
    ensures forall c :: c in r <==> c in h && c.sequenceNumber != s
  {
    if h == [] then []
    else if h[0].sequenceNumber == s then Without(h[1..], s)
    else
      var rest := Without(h[1..], s);
      assert forall c :: c in [h[0]] + rest <==> c == h[0] || c in rest;
      [h[0]] + rest
  }

  lemma {:induction false} WithoutWellFormed(h: seq<CacheChange>, last: nat, s: nat)
    requires WellFormed(h, last)
    ensures WellFormed(Without(h, s), last)
  {
    if h != [] {
      Tail(h, last);
      WithoutWellFormed(h[1..], last, s);
      if h[0].sequenceNumber != s {
        Cons(h[0], Without(h[1..], s), last);
      }
    }
  }

  /** The tail of a well-formed history is well formed, and its numbers differ from the head's. */
  lemma Tail(h: seq<CacheChange>, last: nat)
    requires WellFormed(h, last) && h != []
    ensures WellFormed(h[1..], last)
    ensures forall c | c in h[1..] :: c.sequenceNumber != h[0].sequenceNumber
  {
    assert forall i | 0 <= i < |h[1..]| :: h[1..][i] == h[i + 1];
  }

  lemma Cons(c: CacheChange, rest: seq<CacheChange>, last: nat)
    requires WellFormed(rest, last) && 1 <= c.sequenceNumber <= last
    requires forall x | x in rest :: x.sequenceNumber != c.sequenceNumber
    ensures WellFormed([c] + rest, last)
  {
    var r := [c] + rest;
    assert forall i | 1 <= i < |r| :: r[i] == rest[i - 1];
  }

  /** The change of number `s` in `h`, if any. */
  function Find(h: seq<CacheChange>, s: nat): (r: Option<CacheChange>)
    ensures r.Some? <==> exists i :: 0 <= i < |h| && h[i].sequenceNumber == s
    ensures r.Some? ==> r.value in h && r.value.sequenceNumber == s
  {
    if h == [] then None
    else if h[0].sequenceNumber == s then Some(h[0])
    else
      var r := Find(h[1..], s);
      assert forall i | 1 <= i < |h| :: h[i] == h[1..][i - 1];
      r
  }

  /** remove_change_and_reuse followed by add_change puts the same change back under its
      own number: the history holds the same changes as before. */
  lemma {:induction false} ReuseKeepsChanges(h: seq<CacheChange>, last: nat, s: nat)
    requires WellFormed(h, last) && Find(h, s).Some?
    ensures multiset(Without(h, s) + [Find(h, s).value]) == multiset(h)
    ensures WellFormed(Without(h, s) + [Find(h, s).value], last)
  {
    ReuseSameChanges(h, last, s);
    WithoutWellFormed(h, last, s);
    AppendDistinct(Without(h, s), last, Find(h, s).value);
  }

  lemma {:induction false} ReuseSameChanges(h: seq<CacheChange>, last: nat, s: nat)
    requires WellFormed(h, last) && Find(h, s).Some?
    ensures multiset(Without(h, s) + [Find(h, s).value]) == multiset(h)
  {
    if h[0].sequenceNumber == s {
      ReuseHead(h, last, s);
    } else {
      Tail(h, last);
      ReuseSameChanges(h[1..], last, s);
      assert Without(h, s) + [Find(h, s).value] == [h[0]] + (Without(h[1..], s) + [Find(h[1..], s).value]);
      assert h == [h[0]] + h[1..];
    }
  }

  /** The change of number `s` heads the history: it moves from the front to the back. */
  lemma ReuseHead(h: seq<CacheChange>, last: nat, s: nat)
    requires WellFormed(h, last) && h != [] && h[0].sequenceNumber == s
    ensures multiset(Without(h, s) + [Find(h, s).value]) == multiset(h)
  {
    Tail(h, last);
    WithoutAbsent(h[1..], s);
    assert h == [h[0]] + h[1..];
  }

  lemma AppendDistinct(h: seq<CacheChange>, last: nat, c: CacheChange)
    requires WellFormed(h, last) && 1 <= c.sequenceNumber <= last
    requires forall x | x in h :: x.sequenceNumber != c.sequenceNumber
    ensures WellFormed(h + [c], last)
  {
    var r := h + [c];
    forall i, j | 0 <= i < j < |r| ensures r[i].sequenceNumber != r[j].sequenceNumber {
      if j == |r| - 1 { assert r[i] == h[i] && h[i] in h; }
    }
  }

  /** Removing a number the history does not hold changes nothing. */
  lemma {:induction false} WithoutAbsent(h: seq<CacheChange>, s: nat)
    requires forall c | c in h :: c.sequenceNumber != s
    ensures Without(h, s) == h
  {
    if h != [] {
      WithoutAbsent(h[1..], s);
      assert h == [h[0]] + h[1..];
    }
  }

  /** Adding a change under the next number keeps the history well formed. */
  lemma AppendNext(h: seq<CacheChange>, last: nat, c: CacheChange)
    requires WellFormed(h, last) && c.sequenceNumber == last + 1
    ensures WellFormed(h + [c], last + 1)
  {
  }

  /** Removing one number keeps every other number. */
  lemma FindWithout(h: seq<CacheChange>, s: nat, s': nat)
    requires Find(h, s').Some? && s' != s
    ensures Find(Without(h, s), s').Some?
  {
    assert Find(h, s').value in Without(h, s);
    var i :| 0 <= i < |Without(h, s)| && Without(h, s)[i] == Find(h, s').value;
  }

  /** Appending keeps every number and adds that of the change appended. */
  lemma FindAppend(h: seq<CacheChange>, c: CacheChange, s: nat)
    requires Find(h, s).Some? || s == c.sequenceNumber
    ensures Find(h + [c], s).Some?
  {
    if Find(h, s).Some? {
      var i :| 0 <= i < |h| && h[i].sequenceNumber == s;
      assert (h + [c])[i] == h[i];
    } else {
      assert (h + [c])[|h|] == c;
    }
  }

  /** A well-formed history holds no number beyond its bound. */
  lemma FindBound(h: seq<CacheChange>, last: nat, s: nat)
    requires WellFormed(h, last) && Find(h, s).Some?
    ensures 1 <= s <= last
  {
    var i :| 0 <= i < |h| && h[i].sequenceNumber == s;
  }

  /** Histories holding the same changes hold the same numbers. */
  lemma FindSameChanges(h: seq<CacheChange>, h': seq<CacheChange>, s: nat)
    requires multiset(h) == multiset(h') && Find(h, s).Some?
    ensures Find(h', s).Some?
  {
    var c := Find(h, s).value;
    assert c in multiset(h);
    assert c in h';
    var i :| 0 <= i < |h'| && h'[i] == c;
  }
}
