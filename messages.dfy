/** The messages kept from one conversation and their ordering by timestamp
    (the `messages` list of `_convert_single` and its `sort`). */
module Messages {

  /** One kept message: its sort key (the message's `create_time`, or 0 when
      that is missing or falsy), the author's role and the stripped text. */
  datatype Msg = Msg(timestamp: real, role: string, text: string)

  /** Non-decreasing in timestamp. */
  predicate Sorted(s: seq<Msg>) {
    forall i, j :: 0 <= i < j < |s| ==> s[i].timestamp <= s[j].timestamp
  }

  /** The messages of `s` whose timestamp is `t`, in their order in `s`. */
  function WithTime(s: seq<Msg>, t: real): seq<Msg> {
    if s == [] then []
    else (if s[0].timestamp == t then [s[0]] else []) + WithTime(s[1..], t)
  }

  /** `u` keeps the order of `s` among messages with equal timestamps: what a
      stable sort guarantees for ties. */
  ghost predicate SameTies(u: seq<Msg>, s: seq<Msg>) {
    forall t :: WithTime(u, t) == WithTime(s, t)
  }

  /** `x` inserted into `s` in front of the first message whose timestamp is not
      smaller than its own. */
  function Insert(x: Msg, s: seq<Msg>): (r: seq<Msg>)
    ensures |r| == |s| + 1
    ensures r[0] == x || (s != [] && r[0] == s[0])
    ensures Sorted(s) ==> Sorted(r)
  {
    if s == [] || x.timestamp <= s[0].timestamp then
      assert ([x] + s)[1..] == s;
      [x] + s
    else
      var rest := Insert(x, s[1..]);
      var r := [s[0]] + rest;
      assert Sorted(s) ==> s[0].timestamp <= rest[0].timestamp;
      assert forall q :: 0 < q < |r| ==> r[q] == rest[q - 1];
      r
  }

  /** Inserting adds only `x`, and puts it ahead of the messages of `s` that
      share its timestamp (they came after it in the input). */
  lemma {:induction false} InsertTies(x: Msg, s: seq<Msg>, t: real)
    ensures WithTime(Insert(x, s), t) == if x.timestamp == t then [x] + WithTime(s, t) else WithTime(s, t)
  {
    if !(s == [] || x.timestamp <= s[0].timestamp) {
      var r, rest := Insert(x, s), Insert(x, s[1..]);
      var head := if s[0].timestamp == t then [s[0]] else [];
      assert r == [s[0]] + rest;
      assert r[0] == s[0] && r[1..] == rest;
      assert WithTime(r, t) == head + WithTime(rest, t);
      assert WithTime(s, t) == head + WithTime(s[1..], t);
      InsertTies(x, s[1..], t);
    }
  }

  /** The reference stable sort by timestamp: insertion sort, each message
      placed in front of the later ones it ties with. */
  function StableSort(s: seq<Msg>): (r: seq<Msg>)
    ensures Sorted(r)
    ensures SameTies(r, s)
  {
    if s == [] then []
    else
      var r := Insert(s[0], StableSort(s[1..]));
      assert forall t :: WithTime(r, t) == WithTime(s, t) by {
        forall t ensures WithTime(r, t) == WithTime(s, t) {
          InsertTies(s[0], StableSort(s[1..]), t);
        }
      }
      r
  }

  lemma {:induction false} WithTimeAppend(a: seq<Msg>, b: seq<Msg>, t: real)
    ensures WithTime(a + b, t) == WithTime(a, t) + WithTime(b, t)
  {
    if a == [] {
      assert a + b == b;
    } else {
      var head := if a[0].timestamp == t then [a[0]] else [];
      assert (a + b)[0] == a[0];
      assert (a + b)[1..] == a[1..] + b;
      assert WithTime(a + b, t) == head + WithTime(a[1..] + b, t);
      assert WithTime(a, t) == head + WithTime(a[1..], t);
      WithTimeAppend(a[1..], b, t);
    }
  }

  /** A run of messages none of which has timestamp `t` holds no tie of `t`. */
  lemma {:induction false} NoTies(s: seq<Msg>, t: real)
    requires forall m :: 0 <= m < |s| ==> s[m].timestamp != t
    ensures WithTime(s, t) == []
  {
    if s != [] {
      NoTies(s[1..], t);
    }
  }

  /** Moving the message at `i` left to position `k`, past messages whose
      timestamps all differ from its own, keeps every tie group. */
  lemma MoveKeepsTies(s: seq<Msg>, k: nat, i: nat)
    requires k <= i < |s|
    requires forall m :: k <= m < i ==> s[m].timestamp != s[i].timestamp
    ensures SameTies(s[..k] + [s[i]] + s[k..i] + s[i + 1..], s)
  {
    var x, front, passed, back := s[i], s[..k], s[k..i], s[i + 1..];
    var u := front + [x] + passed + back;
    assert s == front + passed + [x] + back;
    forall t ensures WithTime(u, t) == WithTime(s, t) {
      WithTimeAppend(front + [x] + passed, back, t);
      WithTimeAppend(front + [x], passed, t);
      WithTimeAppend(front, [x], t);
      WithTimeAppend(front + passed + [x], back, t);
      WithTimeAppend(front + passed, [x], t);
      WithTimeAppend(front, passed, t);
      if x.timestamp == t {
        NoTies(passed, t);
      }
    }
  }

  /** In a sorted sequence no message with timestamp `t` comes before one with a
      larger timestamp, so if some message has timestamp `t`, the first one's
      timestamp is at most `t`. */
  lemma {:induction false} FirstIsSmallest(s: seq<Msg>, t: real)
    requires Sorted(s) && WithTime(s, t) != []
    ensures s[0].timestamp <= t
  {
    if s[0].timestamp != t {
      assert WithTime(s[1..], t) != [];
      FirstIsSmallest(s[1..], t);
    }
  }

  /** Sortedness and equal tie groups determine a sequence: two sorted
      sequences that agree on every tie group are equal. So every stable sort
      by timestamp gives the same result as `StableSort`. */
  lemma {:induction false} TiesDetermineSorted(u: seq<Msg>, s: seq<Msg>)
    requires Sorted(u) && Sorted(s) && SameTies(u, s)
    ensures u == s
  {
    if u == [] || s == [] {
      // a message of either would appear in its tie group in the other
      if u != [] {
        NonEmptyTies(u);
      } else if s != [] {
        NonEmptyTies(s);
      }
    } else {
      var a, b := u[0].timestamp, s[0].timestamp;
      assert WithTime(s, a) != [] by { assert WithTime(u, a) != []; }
      assert WithTime(u, b) != [] by { assert WithTime(s, b) != []; }
      FirstIsSmallest(s, a);
      FirstIsSmallest(u, b);
      assert a == b;
      assert WithTime(u, a)[0] == u[0] && WithTime(s, a)[0] == s[0];
      assert SameTies(u[1..], s[1..]) by {
        forall t ensures WithTime(u[1..], t) == WithTime(s[1..], t) {
          var head := if a == t then [u[0]] else [];
          assert WithTime(u, t) == head + WithTime(u[1..], t);
          assert WithTime(s, t) == head + WithTime(s[1..], t);
          assert WithTime(u[1..], t) == WithTime(u, t)[|head|..];
          assert WithTime(s[1..], t) == WithTime(s, t)[|head|..];
        }
      }
      TiesDetermineSorted(u[1..], s[1..]);
      assert u == [u[0]] + u[1..] && s == [s[0]] + s[1..];
    }
  }

  /** A non-empty list has a non-empty tie group for its first timestamp. */
  lemma NonEmptyTies(s: seq<Msg>)
    requires s != []
    ensures WithTime(s, s[0].timestamp) != []
  {
  }

  /** A message occurs in `s` as often as in its tie group. */
  lemma {:induction false} CountInTies(s: seq<Msg>, m: Msg)
    ensures multiset(s)[m] == multiset(WithTime(s, m.timestamp))[m]
  {
    if s != [] {
      CountInTies(s[1..], m);
      assert s == [s[0]] + s[1..];
    }
  }

  /** Keeping every tie group makes a permutation: nothing is dropped or
      duplicated. */
  lemma SameTiesPermutation(u: seq<Msg>, s: seq<Msg>)
    requires SameTies(u, s)
    ensures multiset(u) == multiset(s)
  {
    forall m ensures multiset(u)[m] == multiset(s)[m] {
      CountInTies(u, m);
      CountInTies(s, m);
      assert WithTime(u, m.timestamp) == WithTime(s, m.timestamp);
    }
  }

  /** `list.sort(key=lambda x: x['timestamp'])` on the kept messages: an
      in-place, stable sort. Insertion sort by swaps of neighbours; a message
      moves past another only when its timestamp is strictly smaller, which
      is what keeps ties in their original order. */
  method SortByTimestamp(a: array<Msg>)
    modifies a
    ensures Sorted(a[..])
    ensures SameTies(a[..], old(a[..]))
    ensures multiset(a[..]) == multiset(old(a[..]))
    ensures a[..] == StableSort(old(a[..]))
  {
    ghost var orig := a[..];
    var i := 0;
    while i < a.Length
      invariant 0 <= i <= a.Length
      invariant forall p, q :: 0 <= p < q < i ==> a[p].timestamp <= a[q].timestamp
      invariant SameTies(a[..], orig)
    {
      ghost var before := a[..];
      var k := SinkLeft(a, i);
      Sunk(a[..], before, k, i);
      i := i + 1;
    }
    SameTiesPermutation(a[..], orig);
    TiesDetermineSorted(a[..], StableSort(orig));
  }

  /** One pass of the insertion sort: the message at `i` moves left to
      position `k`, past exactly the earlier messages with a strictly larger
      timestamp, which shift one place right; it stops behind a message no
      later than itself, and the rest of the array is untouched. `Sunk` turns
      this into a sorted prefix one longer, with every tie group kept. */
  method SinkLeft(a: array<Msg>, i: nat) returns (k: nat)
    requires i < a.Length
    requires forall p, q :: 0 <= p < q < i ==> a[p].timestamp <= a[q].timestamp
    modifies a
    ensures k <= i
    ensures a[k] == old(a[i])
    ensures forall m :: 0 <= m < k ==> a[m] == old(a[m])
    ensures forall m :: k < m <= i ==> a[m] == old(a[m - 1])
    ensures forall m :: i < m < a.Length ==> a[m] == old(a[m])
    ensures forall m :: k <= m < i ==> old(a[m]).timestamp > old(a[i]).timestamp
    ensures 0 < k ==> a[k - 1].timestamp <= a[k].timestamp
  {
    ghost var orig := a[..];
    k := i;
    while k > 0 && a[k - 1].timestamp > a[k].timestamp
      invariant 0 <= k <= i
      invariant a[k] == orig[i]
      invariant forall m :: 0 <= m < k ==> a[m] == orig[m]
      invariant forall m :: k < m <= i ==> a[m] == orig[m - 1]
      invariant forall m :: i < m < a.Length ==> a[m] == orig[m]
      invariant forall m :: k <= m < i ==> orig[m].timestamp > orig[i].timestamp
    {
      a[k - 1], a[k] := a[k], a[k - 1];
      k := k - 1;
    }
  }

  /** The array after one insertion pass, read element by element, is the
      original with the message at `i` moved to `k`; when it stopped behind a
      message no later than itself, the prefix up to `i` is sorted. */
  lemma Sunk(u: seq<Msg>, s: seq<Msg>, k: nat, i: nat)
    requires k <= i < |s| == |u|
    requires u[k] == s[i]
    requires forall m :: 0 <= m < k ==> u[m] == s[m]
    requires forall m :: k < m <= i ==> u[m] == s[m - 1]
    requires forall m :: i < m < |u| ==> u[m] == s[m]
    requires forall m :: k <= m < i ==> s[m].timestamp > s[i].timestamp
    requires forall p, q :: 0 <= p < q < i ==> s[p].timestamp <= s[q].timestamp
    requires 0 < k ==> s[k - 1].timestamp <= s[i].timestamp
    ensures u == s[..k] + [s[i]] + s[k..i] + s[i + 1..]
    ensures forall p, q :: 0 <= p < q <= i ==> u[p].timestamp <= u[q].timestamp
    ensures SameTies(u, s)
  {
    assert u == s[..k] + [s[i]] + s[k..i] + s[i + 1..];
    MoveKeepsTies(s, k, i);
  }
}
