/** Reference definitions of what the two name searches return, and their properties. */
module Search {
  import opened Wrappers
  import opened Text
  import opened Events

  /** An event matches a name when its summary contains the name (case-sensitive). */
  predicate Matches(e: Event, name: string) {
    Contains(e.summary, name)
  }

  /** The events of `evs` that match `name`, in their order in `evs`. */
  function Filter(evs: seq<Event>, name: string): (r: seq<Event>)
    ensures |r| <= |evs|
    ensures forall k :: 0 <= k < |r| ==> Matches(r[k], name)
  {
    if |evs| == 0 then []
    else
      var last := evs[|evs| - 1];
      Filter(evs[..|evs| - 1], name) + (if Matches(last, name) then [last] else [])
  }

  /** The first event of `evs` that matches `name`, or None. */
  function FirstMatch(evs: seq<Event>, name: string): Option<Event> {
    var r := Filter(evs, name);
    if |r| == 0 then None else Some(r[0])
  }

  /** Filtering distributes over concatenation. */
  lemma {:induction false} FilterAppend(a: seq<Event>, b: seq<Event>, name: string)
    ensures Filter(a + b, name) == Filter(a, name) + Filter(b, name)
    decreases |b|
  {
    if |b| == 0 {
      assert a + b == a;
    } else {
      var b' := b[..|b| - 1];
      assert (a + b)[..|a + b| - 1] == a + b';
      FilterAppend(a, b', name);
    }
  }

  /** An event is in the result exactly when it is in `evs` and matches. */
  lemma {:induction false} FilterMembership(evs: seq<Event>, name: string, e: Event)
    ensures e in Filter(evs, name) <==> e in evs && Matches(e, name)
  {
    if |evs| > 0 {
      var init := evs[..|evs| - 1];
      FilterMembership(init, name, e);
      assert evs == init + [evs[|evs| - 1]];
    }
  }

  /** The result is a subsequence of `evs` whose positions are exactly the matching ones:
      `idx` lists, in increasing order, every index of `evs` whose event matches. */
  lemma {:induction false} FilterIndices(evs: seq<Event>, name: string) returns (idx: seq<nat>)
    ensures |idx| == |Filter(evs, name)|
    ensures forall k :: 0 <= k < |idx| ==> idx[k] < |evs| && Filter(evs, name)[k] == evs[idx[k]]
    ensures forall k, l :: 0 <= k < l < |idx| ==> idx[k] < idx[l]
    ensures forall j :: 0 <= j < |evs| && Matches(evs[j], name) ==> j in idx
  {
    if |evs| == 0 {
      idx := [];
    } else {
      var n := |evs| - 1;
      var init := evs[..n];
      var pre := FilterIndices(init, name);
      if Matches(evs[n], name) {
        idx := pre + [n];
      } else {
        idx := pre;
      }
      forall j | 0 <= j < |evs| && Matches(evs[j], name) ensures j in idx {
        if j < n {
          assert init[j] == evs[j];
          assert j in pre;
        }
      }
    }
  }

  /** With no match among `evs`, the result is empty. */
  lemma {:induction false} FilterNone(evs: seq<Event>, name: string)
    requires forall j :: 0 <= j < |evs| ==> !Matches(evs[j], name)
    ensures Filter(evs, name) == []
  {
    if |evs| > 0 {
      FilterNone(evs[..|evs| - 1], name);
    }
  }

  /** Every summary contains the empty name, so searching for "" keeps every event. */
  lemma {:induction false} FilterEmptyName(evs: seq<Event>)
    ensures Filter(evs, "") == evs
  {
    if |evs| > 0 {
      var init := evs[..|evs| - 1];
      FilterEmptyName(init);
      ContainsEmpty(evs[|evs| - 1].summary);
      assert evs == init + [evs[|evs| - 1]];
    }
  }

  /** When `i` is the first matching position, the filtered sequence starts with `evs[i]`. */
  lemma FilterFirst(evs: seq<Event>, name: string, i: nat)
    requires i < |evs| && Matches(evs[i], name)
    requires forall j :: 0 <= j < i ==> !Matches(evs[j], name)
    ensures |Filter(evs, name)| > 0 && Filter(evs, name)[0] == evs[i]
  {
    FilterNone(evs[..i], name);
    var head := evs[..i + 1];
    assert head[..i] == evs[..i];
    assert Filter(head, name) == [evs[i]];
    FilterAppend(head, evs[i + 1..], name);
    assert evs == head + evs[i + 1..];
  }

  /** FirstMatch finds the earliest matching event, and finds nothing only when no event matches. */
  lemma FirstMatchIsEarliest(evs: seq<Event>, name: string)
    ensures FirstMatch(evs, name).None? <==> forall j :: 0 <= j < |evs| ==> !Matches(evs[j], name)
    ensures FirstMatch(evs, name).Some? ==>
      exists i :: 0 <= i < |evs| && evs[i] == FirstMatch(evs, name).value && Matches(evs[i], name)
                  && forall j :: 0 <= j < i ==> !Matches(evs[j], name)
  {
    if forall j :: 0 <= j < |evs| ==> !Matches(evs[j], name) {
      FilterNone(evs, name);
    } else {
      var i := Earliest(evs, name);
      FilterFirst(evs, name, i);
    }
  }

  /** The smallest matching index, when there is one. */
  lemma Earliest(evs: seq<Event>, name: string) returns (i: nat)
    requires exists j :: 0 <= j < |evs| && Matches(evs[j], name)
    ensures i < |evs| && Matches(evs[i], name)
    ensures forall j :: 0 <= j < i ==> !Matches(evs[j], name)
  {
    i := 0;
    while !Matches(evs[i], name)
      invariant i < |evs|
      invariant forall j :: 0 <= j < i ==> !Matches(evs[j], name)
      invariant exists j :: i <= j < |evs| && Matches(evs[j], name)
      decreases |evs| - i
    {
      i := i + 1;
    }
  }

  /** Searching for "" returns the first event, if any. */
  lemma FirstMatchEmptyName(evs: seq<Event>)
    ensures FirstMatch(evs, "") == if |evs| == 0 then None else Some(evs[0])
  {
    FilterEmptyName(evs);
  }

  /** If the event at position `k` matches, the first match exists, matches, and sits at or before `k`. */
  lemma FirstMatchNoLaterThan(evs: seq<Event>, name: string, k: nat)
    requires k < |evs| && Matches(evs[k], name)
    ensures FirstMatch(evs, name).Some?
    ensures Matches(FirstMatch(evs, name).value, name)
    ensures exists i :: 0 <= i <= k && evs[i] == FirstMatch(evs, name).value
  {
    var i := Earliest(evs, name);
    FilterFirst(evs, name, i);
    assert i <= k;
  }
}
