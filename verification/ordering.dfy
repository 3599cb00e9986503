/** The canonical order of event rows, `Meta.ordering = (session, timestamp)`:
    ascending by session id, then by timestamp. Rows equal on both keys keep
    their insertion order here; the database promises nothing about them. */
module Ordering {
  import opened Schema

  /** `a` may come before `b` in the canonical order. */
  predicate Precedes(a: Event, b: Event) {
    a.session < b.session || (a.session == b.session && a.timestamp <= b.timestamp)
  }

  predicate Sorted(s: seq<Event>) {
    forall i, j :: 0 <= i < j < |s| ==> Precedes(s[i], s[j])
  }

  /** The order is total and transitive: any two rows can be compared. */
  lemma {:induction false} PrecedesTotalPreorder(a: Event, b: Event, c: Event)
    ensures Precedes(a, b) || Precedes(b, a)
    ensures Precedes(a, b) && Precedes(b, c) ==> Precedes(a, c)
  {
  }

  /** Puts `e` into the sorted `s`, before the first row it precedes. */
  function Insert(e: Event, s: seq<Event>): (r: seq<Event>)
    requires Sorted(s)
    ensures Sorted(r)
    ensures multiset(r) == multiset(s) + multiset{e}
    ensures |r| == |s| + 1
    decreases |s|
  {
    if |s| == 0 then [e]
    else if Precedes(e, s[0]) then [e] + s
    else
      var rest := Insert(e, s[1..]);
      assert s == [s[0]] + s[1..];
      assert forall x :: x in rest ==> Precedes(s[0], x) by {
        forall x | x in rest ensures Precedes(s[0], x) {
          assert x in multiset(rest);
          if x != e {
            assert x in multiset(s[1..]);
            var k :| 0 <= k < |s[1..]| && s[1..][k] == x;
            assert s[k + 1] == x;
          }
        }
      }
      [s[0]] + rest
  }

  /** Rows in canonical order: sorted, and the same rows as the input. */
  function Sort(s: seq<Event>): (r: seq<Event>)
    ensures Sorted(r)
    ensures multiset(r) == multiset(s)
    decreases |s|
  {
    if |s| == 0 then []
    else
      assert s == [s[0]] + s[1..];
      Insert(s[0], Sort(s[1..]))
  }
}
