/** Pending-booking records and the two list operations the hook performs on
    them: the duplicate test of `addPendingBooking` (an `Array.prototype.some`
    over transaction ids) and the filter of `removePendingBooking` (an
    `Array.prototype.filter` on transaction ids).
 */
module Bookings {

  /** The one status a record in this store can carry. */
  datatype Status = Pending

  /** A booking whose on-chain transaction was submitted but not yet confirmed.
      Only `txId` is interpreted; the numeric fields are JavaScript numbers
      carried as opaque payload (`int` for the identifiers and timestamps,
      `real` for the amount), never computed with.
   */
  datatype Booking = Booking(
    txId: string,
    propertyId: int,
    checkIn: int,
    checkOut: int,
    guestAddress: string,
    totalAmount: real,
    createdAt: int,
    status: Status)

  /** Some booking of `bs` carries transaction id `id`. */
  function ContainsTx(bs: seq<Booking>, id: string): (r: bool)
    ensures r <==> exists k :: 0 <= k < |bs| && bs[k].txId == id
  {
    if bs == [] then false
    else bs[0].txId == id || ContainsTx(bs[1..], id)
  }

  /** No two bookings of `bs` share a transaction id. */
  ghost predicate UniqueTxIds(bs: seq<Booking>) {
    forall i, j :: 0 <= i < j < |bs| ==> bs[i].txId != bs[j].txId
  }

  /** `sub` is `s` with some elements deleted and the rest kept in order. */
  ghost predicate IsSubsequence<T>(sub: seq<T>, s: seq<T>)
    decreases |s|
  {
    if sub == [] then true
    else if s == [] then false
    else (sub[0] == s[0] && IsSubsequence(sub[1..], s[1..])) || IsSubsequence(sub, s[1..])
  }

  /** The bookings of `bs` whose transaction id differs from `id`, in their
      original order. The lemmas below state what it keeps and in what order.
   */
  function Without(bs: seq<Booking>, id: string): (r: seq<Booking>)
    ensures !ContainsTx(r, id)
  {
    if bs == [] then []
    else if bs[0].txId == id then Without(bs[1..], id)
    else [bs[0]] + Without(bs[1..], id)
  }

  /** The filter only deletes: what it keeps stays in its original order. */
  lemma {:induction false} WithoutKeepsOrder(bs: seq<Booking>, id: string)
    ensures IsSubsequence(Without(bs, id), bs)
    decreases |bs|
  {
    if bs != [] {
      WithoutKeepsOrder(bs[1..], id);
      var r := Without(bs, id);
      if bs[0].txId != id {
        assert r[1..] == Without(bs[1..], id);
      }
    }
  }

  /** A booking survives the filter exactly when it was listed with another id. */
  lemma {:induction false} WithoutMembers(bs: seq<Booking>, id: string)
    ensures forall b :: b in Without(bs, id) <==> b in bs && b.txId != id
    decreases |bs|
  {
    if bs != [] {
      WithoutMembers(bs[1..], id);
      assert bs == [bs[0]] + bs[1..];
    }
  }

  /** Filtering out an id that is not listed returns the list itself. */
  lemma {:induction false} WithoutAbsentIsIdentity(bs: seq<Booking>, id: string)
    requires !ContainsTx(bs, id)
    ensures Without(bs, id) == bs
    decreases |bs|
  {
    if bs != [] {
      assert bs[0].txId != id;
      assert !ContainsTx(bs[1..], id) by {
        forall k | 0 <= k < |bs[1..]|
          ensures bs[1..][k].txId != id
        {
          assert bs[1..][k] == bs[k + 1];
        }
      }
      WithoutAbsentIsIdentity(bs[1..], id);
      assert bs == [bs[0]] + bs[1..];
    }
  }

  /** Filtering keeps transaction ids distinct. */
  lemma {:induction false} WithoutKeepsUnique(bs: seq<Booking>, id: string)
    requires UniqueTxIds(bs)
    ensures UniqueTxIds(Without(bs, id))
    decreases |bs|
  {
    if bs != [] {
      var rest := bs[1..];
      assert UniqueTxIds(rest) by {
        forall i, j | 0 <= i < j < |rest|
          ensures rest[i].txId != rest[j].txId
        {
          assert rest[i] == bs[i + 1] && rest[j] == bs[j + 1];
        }
      }
      WithoutKeepsUnique(rest, id);
      WithoutMembers(rest, id);
      if bs[0].txId != id {
        var r := Without(bs, id);
        var w := Without(rest, id);
        assert r == [bs[0]] + w;
        forall j | 0 <= j < |w|
          ensures w[j].txId != bs[0].txId
        {
          assert w[j] in rest;
          var m :| 0 <= m < |rest| && rest[m] == w[j];
          assert rest[m] == bs[m + 1];
        }
      }
    }
  }

  /** `Without(bs, id)` is the longest subsequence of `bs` that avoids `id`,
      and the only one of that length: any other way of deleting elements so
      that `id` disappears either deletes more or produces the same list.
   */
  lemma {:induction false} WithoutIsLongestAvoiding(r: seq<Booking>, bs: seq<Booking>, id: string)
    requires IsSubsequence(r, bs) && !ContainsTx(r, id)
    ensures |r| <= |Without(bs, id)|
    ensures |r| == |Without(bs, id)| ==> r == Without(bs, id)
    decreases |bs|
  {
    if r == [] {
    } else {
      var x, rest := bs[0], bs[1..];
      if r[0] == x && IsSubsequence(r[1..], rest) {
        assert x.txId != id;
        WithoutIsLongestAvoiding(r[1..], rest, id);
        assert Without(bs, id) == [x] + Without(rest, id);
        if |r| == |Without(bs, id)| {
          assert r == [r[0]] + r[1..];
        }
      } else {
        assert IsSubsequence(r, rest);
        WithoutIsLongestAvoiding(r, rest, id);
      }
    }
  }

  /** Filtering distributes over concatenation: elements of `a` stay ahead of
      the elements of `b`.
   */
  lemma {:induction false} WithoutAppend(a: seq<Booking>, b: seq<Booking>, id: string)
    ensures Without(a + b, id) == Without(a, id) + Without(b, id)
    decreases |a|
  {
    if a == [] {
      assert a + b == b;
    } else {
      assert (a + b)[1..] == a[1..] + b;
      WithoutAppend(a[1..], b, id);
    }
  }
}
