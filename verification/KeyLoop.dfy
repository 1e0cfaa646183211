/** The loop over the keys of an array, which asks for the key after the current one while its body
    changes the array: what it visits, and when it finishes. */
module KeyLoop {
  import opened Options
  import opened Syntax
  import opened Arrays

  // ----- The loop over keys -----

  /** What a loop body does to the array, given the key and what the array holds. */
  type Body = (string, map<string, Cell>) -> seq<Change>

  function AllChanged(l: List, changes: seq<Change>): List
    decreases changes
  {
    if changes == [] then l else AllChanged(Changed(l, changes[0]), changes[1..])
  }

  function AllMapped(contents: map<string, Cell>, changes: seq<Change>): map<string, Cell>
    decreases changes
  {
    if changes == [] then contents else AllMapped(Mapped(contents, changes[0]), changes[1..])
  }

  predicate Removes(changes: seq<Change>, key: string) {
    Remove(key) in changes || RemoveAll in changes
  }

  /** The keys the changes do not delete, not even to put them back. */
  function Without(keys: seq<string>, changes: seq<Change>): (rest: seq<string>)
    ensures |rest| <= |keys|
  {
    if keys == [] then [] else (if Removes(changes, keys[0]) then [] else [keys[0]]) + Without(keys[1..], changes)
  }

  /** A loop finishes, or it asks for the key after one whose text is gone. */
  datatype Ending = Finished | KeyFreed

  datatype Loop = Loop(visited: seq<string>, ending: Ending, contents: map<string, Cell>)

  /** The loop over the keys there were at its start: each turn takes away those it deletes. */
  function Visits(pending: seq<string>, contents: map<string, Cell>, body: Body): Loop
    decreases |pending|
  {
    if pending == [] then Loop([], Finished, contents) else
    var changes := body(pending[0], contents);
    var later := AllMapped(contents, changes);
    if Removes(changes, pending[0]) then Loop([pending[0]], if later == map[] then Finished else KeyFreed, later) else
    var rest := Visits(Without(pending[1..], changes), later, body);
    rest.(visited := [pending[0]] + rest.visited)
  }

  // ----- Where the current entry goes -----

  lemma {:induction false} WithoutNone(keys: seq<string>, changes: seq<Change>)
    requires forall k :: k in keys ==> !Removes(changes, k)
    ensures Without(keys, changes) == keys
  {
    if keys != [] { WithoutNone(keys[1..], changes); }
  }

  lemma {:induction false} WithoutOne(keys: seq<string>, j: nat)
    requires Distinct(keys) && j < |keys|
    ensures Without(keys, [Remove(keys[j])]) == keys[..j] + keys[j + 1..]
    decreases keys
  {
    hide Distinct;
    TailApart(keys);
    if j == 0 {
      WithoutNone(keys[1..], [Remove(keys[0])]);
    } else {
      WithoutOne(keys[1..], j - 1);
      LeftOut(keys, j);
    }
  }

  /** A list without one key further on, from its tail without it. */
  lemma LeftOut(keys: seq<string>, j: nat)
    requires 0 < j < |keys|
    ensures keys[1..][j - 1] == keys[j] && keys[j] in keys[1..]
    ensures [keys[0]] + (keys[1..][..j - 1] + keys[1..][j..]) == keys[..j] + keys[j + 1..]
  {
    assert [keys[0]] + keys[1..][..j - 1] == keys[..j];
    assert keys[1..][j..] == keys[j + 1..];
  }

  lemma {:induction false} WithoutThen(keys: seq<string>, change: Change, more: seq<Change>)
    ensures Without(Without(keys, [change]), more) == Without(keys, [change] + more)
  {
    if keys != [] {
      WithoutThen(keys[1..], change, more);
      var k, rest := keys[0], Without(keys[1..], [change]);
      assert Removes([change] + more, k) <==> Removes([change], k) || Removes(more, k);
      if Removes([change], k) {
        assert [] + rest == rest && [] + Without(rest, more) == Without(rest, more);
      } else {
        assert ([k] + rest)[1..] == rest;
      }
    }
  }

  lemma TailKeys(entries: seq<Entry>, at: nat)
    requires at < |entries| && Distinct(KeysOf(entries))
    ensures
      var tail := KeysOf(entries[at + 1..]);
      tail == KeysOf(entries)[at + 1..] && Distinct(tail) && forall k, i :: k in tail && 0 <= i <= at ==>
        entries[i].key != k
  {
    var tail := KeysOf(entries[at + 1..]);
    assert tail == KeysOf(entries)[at + 1..];
    assert forall i :: 0 <= i <= at ==> KeysOf(entries)[i] == entries[i].key;
  }

  lemma DroppedTail(entries: seq<Entry>, at: nat, i: nat)
    requires at < i < |entries|
    ensures (entries[..i] + entries[i + 1..])[at + 1..] == entries[at + 1..][..i - at - 1] + entries[at + 1..][i - at..]
  {
  }

  lemma TailWithout(entries: seq<Entry>, at: nat, i: nat)
    requires at < i < |entries| && Distinct(KeysOf(entries))
    ensures KeysOf((entries[..i] + entries[i + 1..])[at + 1..])
      == Without(KeysOf(entries[at + 1..]), [Remove(entries[i].key)])
  {
    var tail := entries[at + 1..];
    TailKeys(entries, at);
    WithoutOne(KeysOf(tail), i - at - 1);
    DroppedTail(entries, at, i);
    KeysDelete(tail, i - at - 1);
    assert KeysOf(tail)[i - at - 1] == entries[i].key;
    hide Without, Distinct, KeysOf;
  }

  lemma UpdatedTail(entries: seq<Entry>, e: Entry, at: nat, i: nat)
    requires at < |entries| && i < |entries| && e.key == entries[i].key
    ensures KeysOf(entries[i := e][at + 1..]) == KeysOf(entries[at + 1..])
  {
  }

  lemma ShiftedTail(entries: seq<Entry>, at: nat, i: nat)
    requires i < at < |entries|
    ensures (entries[..i] + entries[i + 1..])[at..] == entries[at + 1..]
      && (entries[..i] + entries[i + 1..])[at - 1] == entries[at]
  {
  }

  /** The entry at `at` of `l` is at `now` of `later`, before the same keys but for those deleted. */
  ghost predicate Stays(l: List, at: nat, later: List, now: nat, changes: seq<Change>) {
    && at < |l.entries| && now < |later.entries| && HandleOf(later.entries[now]) == HandleOf(l.entries[at])
    && KeysOf(later.entries[now + 1..]) == Without(KeysOf(l.entries[at + 1..]), changes)
  }

  lemma PutInPlace(l: List, at: nat, i: nat, change: Change)
    requires at < |l.entries| && i < |l.entries| && change.Put?
    ensures Stays(l, at, l.(entries := l.entries[i := l.entries[i].(cell := change.cell)]), at, [change])
  {
    WithoutNone(KeysOf(l.entries[at + 1..]), [change]);
    UpdatedTail(l.entries, l.entries[i].(cell := change.cell), at, i);
    hide Without, Distinct, KeysOf;
  }

  lemma PutInFront(l: List, at: nat, e: Entry, change: Change)
    requires at < |l.entries| && change.Put?
    ensures Stays(l, at, List([e] + l.entries, l.nextId + 1), at + 1, [change])
  {
    WithoutNone(KeysOf(l.entries[at + 1..]), [change]);
    hide Without, Distinct, KeysOf;
    assert ([e] + l.entries)[at + 2..] == l.entries[at + 1..];
  }

  lemma PutStays(l: List, at: nat, change: Change) returns (now: nat)
    requires at < |l.entries| && change.Put?
    ensures Stays(l, at, Changed(l, change), now, [change])
  {
    hide Without, Distinct, KeysOf, Stays;
    var i := IndexOf(l.entries, change.key);
    now := if i < |l.entries| then at else at + 1;
    if i < |l.entries| {
      PutInPlace(l, at, i, change);
    } else {
      PutInFront(l, at, Entry(l.nextId, change.key, change.cell), change);
    }
  }

  lemma RemovedBehind(l: List, at: nat, i: nat)
    requires l.Valid() && at < i < |l.entries|
    ensures Stays(l, at, l.(entries := l.entries[..i] + l.entries[i + 1..]), at, [Remove(l.entries[i].key)])
  {
    TailWithout(l.entries, at, i);
    hide Without, Distinct, KeysOf, Numbered;
    assert (l.entries[..i] + l.entries[i + 1..])[at] == l.entries[at];
  }

  lemma RemovedInFront(l: List, at: nat, i: nat)
    requires l.Valid() && i < at < |l.entries|
    ensures Stays(l, at, l.(entries := l.entries[..i] + l.entries[i + 1..]), at - 1, [Remove(l.entries[i].key)])
  {
    OneIndex(l.entries, i);
    RemovedBefore(l, at, l.entries[i].key);
    WithoutNone(KeysOf(l.entries[at + 1..]), [Remove(l.entries[i].key)]);
    hide Without, Distinct, KeysOf, Numbered;
    ShiftedTail(l.entries, at, i);
  }

  lemma RemovedNowhere(l: List, at: nat, key: string)
    requires l.Valid() && at < |l.entries| && IndexOf(l.entries, key) == |l.entries|
    ensures Stays(l, at, l, at, [Remove(key)])
  {
    RemovedBefore(l, at, key);
    WithoutNone(KeysOf(l.entries[at + 1..]), [Remove(key)]);
    hide Without, Distinct, KeysOf, Numbered;
  }

  lemma RemoveStays(l: List, at: nat, key: string) returns (now: nat)
    requires l.Valid() && at < |l.entries| && key != l.entries[at].key
    ensures Stays(l, at, Changed(l, Remove(key)), now, [Remove(key)])
  {
    hide Without, Distinct, KeysOf, Numbered, Stays;
    var i := IndexOf(l.entries, key);
    now := if i < at then at - 1 else at;
    if i == |l.entries| {
      RemovedNowhere(l, at, key);
    } else if i < at {
      RemovedInFront(l, at, i);
    } else {
      RemovedBehind(l, at, i);
    }
  }

  lemma RemovedBefore(l: List, at: nat, key: string)
    requires l.Valid() && at < |l.entries| && (IndexOf(l.entries, key) < at || IndexOf(l.entries, key) == |l.entries|)
    ensures key !in KeysOf(l.entries[at + 1..])
  {
    TailKeys(l.entries, at);
    hide Distinct;
  }

  /** A change that does not delete the entry at `at` leaves it there. */
  lemma EntryStays(l: List, at: nat, change: Change) returns (now: nat)
    requires l.Valid() && at < |l.entries| && !Removes([change], l.entries[at].key)
    ensures Stays(l, at, Changed(l, change), now, [change])
  {
    hide Stays, Changed, KeysOf, Distinct;
    if change.Put? { now := PutStays(l, at, change); } else { now := RemoveStays(l, at, change.key); }
  }

  lemma EntryGoes(l: List, at: nat, change: Change)
    requires l.Valid() && at < |l.entries| && Removes([change], l.entries[at].key)
    ensures !Live(Changed(l, change).entries, HandleOf(l.entries[at]))
  {
    if change.Remove? {
      assert KeysOf(l.entries)[IndexOf(l.entries, change.key)] == KeysOf(l.entries)[at];
    }
  }

  /** An entry that is gone does not come back, whatever is put in its place. */
  lemma {:induction false} StaysGone(l: List, handle: Handle, changes: seq<Change>)
    requires l.Valid() && handle.id < l.nextId && !Live(l.entries, handle)
    ensures !Live(AllChanged(l, changes).entries, handle)
    decreases changes
  {
    if changes != [] {
      ChangedMaps(l, changes[0]);
      StaysGone(Changed(l, changes[0]), handle, changes[1..]);
    }
  }

  lemma {:induction false} AllStay(l: List, at: nat, changes: seq<Change>) returns (now: nat)
    requires l.Valid() && at < |l.entries| && !Removes(changes, l.entries[at].key)
    ensures Stays(l, at, AllChanged(l, changes), now, changes)
    decreases changes
  {
    if changes == [] {
      now := at;
      WithoutNone(KeysOf(l.entries[at + 1..]), changes);
    } else {
      hide KeysOf, Distinct, Without, Changed;
      assert changes == [changes[0]] + changes[1..];
      ChangedMaps(l, changes[0]);
      var mid := EntryStays(l, at, changes[0]);
      now := AllStay(Changed(l, changes[0]), mid, changes[1..]);
      WithoutThen(KeysOf(l.entries[at + 1..]), changes[0], changes[1..]);
    }
  }

  lemma {:induction false} OneGoes(l: List, at: nat, changes: seq<Change>)
    requires l.Valid() && at < |l.entries| && Removes(changes, l.entries[at].key)
    ensures !Live(AllChanged(l, changes).entries, HandleOf(l.entries[at]))
    decreases changes
  {
    assert changes == [changes[0]] + changes[1..];
    hide KeysOf, Distinct, Without, Changed, Live;
    ChangedMaps(l, changes[0]);
    if Removes([changes[0]], l.entries[at].key) {
      EntryGoes(l, at, changes[0]);
      NeverLess(l, changes[0]);
      StaysGone(Changed(l, changes[0]), HandleOf(l.entries[at]), changes[1..]);
    } else {
      var mid := EntryStays(l, at, changes[0]);
      OneGoes(Changed(l, changes[0]), mid, changes[1..]);
    }
  }

  lemma NeverLess(l: List, change: Change)
    ensures l.nextId <= Changed(l, change).nextId
  {
  }

  method Perform(a: Array, changes: seq<Change>)
    requires a.Valid()
    modifies a
    ensures a.Valid() && a.Now() == AllChanged(old(a.Now()), changes)
      && a.Contents() == AllMapped(old(a.Contents()), changes)
  {
    hide KeysOf, ContentsOf, Distinct, Changed;
    assert changes[0..] == changes;
    for i := 0 to |changes|
      invariant a.Valid() && AllChanged(a.Now(), changes[i..]) == AllChanged(old(a.Now()), changes)
      invariant AllMapped(a.Contents(), changes[i..]) == AllMapped(old(a.Contents()), changes)
    {
      assert changes[i..][0] == changes[i] && changes[i..][1..] == changes[i + 1..];
      match changes[i] {
        case Put(key, cell) => a.Set(key, cell);
        case Remove(key) => a.Delete(key);
        case RemoveAll => a.Clear();
      }
    }
  }

  /** Control is at the key `at` in the list, with the keys still to come behind it. */
  ghost predicate Facing(entries: seq<Entry>, at: nat, key: Handle, pending: seq<string>) {
    at < |entries| && HandleOf(entries[at]) == key && KeysOf(entries[at..]) == pending
  }

  /** What a turn does to the list, as the key in hand sees it. */
  lemma TurnGoes(l: List, at: nat, key: Handle, changes: seq<Change>, pending: seq<string>) returns (now: nat)
    requires l.Valid() && Facing(l.entries, at, key, pending)
    ensures pending != [] && pending[0] == key.text
    ensures Live(AllChanged(l, changes).entries, key) <==> !Removes(changes, key.text)
    ensures !Removes(changes, key.text) ==>
      var later, rest := AllChanged(l, changes).entries, Without(pending[1..], changes);
      && now < |later| && HandleOf(later[now]) == key
      && (if now + 1 == |later| then rest == []
          else Facing(later, now + 1, HandleOf(later[now + 1]), rest) && rest != [])
  {
    HeadKey(l.entries, at);
    hide KeysOf, Distinct, Without;
    now := 0;
    if Removes(changes, key.text) {
      OneGoes(l, at, changes);
    } else {
      now := AllStay(l, at, changes);
      assert pending[1..] == KeysOf(l.entries[at + 1..]);
    }
  }

  /** One turn, and the key after it. Where the turn has deleted its own key from an array that is
      not empty, the next key is looked for with text that is no longer there: the model stops. */
  method Turn(a: Array, key: Handle, changes: seq<Change>, ghost at: nat, ghost pending: seq<string>)
    returns (freed: bool, next: Option<Handle>, ghost nextAt: nat)
    requires a.Valid() && Facing(a.entries, at, key, pending)
    modifies a
    ensures a.Valid() && a.Contents() == AllMapped(old(a.Contents()), changes)
    ensures pending != [] && pending[0] == key.text
    ensures freed <==> Removes(changes, key.text) && a.Contents() != map[]
    ensures Removes(changes, key.text) ==> next.None?
    ensures !Removes(changes, key.text) ==>
      var rest := Without(pending[1..], changes);
      if rest == [] then next.None? else next.Some? && Facing(a.entries, nextAt, next.value, rest)
  {
    ghost var now := TurnGoes(a.Now(), at, key, changes, pending);
    hide KeysOf, ContentsOf, Distinct, Without, Removes, AllChanged, AllMapped, Facing;
    Perform(a, changes);
    NothingLeft(a.entries);
    nextAt := now + 1;
    if a.entries != [] && !Live(a.entries, key) {
      return true, None, nextAt;
    }
    freed := false;
    next := a.NextKey(key);
    if !Removes(changes, key.text) { assert HandleOf(a.entries[now]) == key; }
  }

  /** `for (key in array)` over any body: it visits the keys there were at its start in the order of
      the list, without those deleted before they are reached, and ends at the first turn that
      deletes its own key. */
  method ForIn(a: Array, body: Body) returns (visited: seq<string>, ending: Ending)
    requires a.Valid()
    modifies a
    ensures a.Valid() && Loop(visited, ending, a.Contents()) == Visits(old(a.Keys()), old(a.Contents()), body)
  {
    hide KeysOf, ContentsOf, Distinct, Without, AllMapped, Removes, Before;
    visited := [];
    BeforeAll(Visits(a.Keys(), a.Contents(), body));
    var key := a.FirstKey();
    ghost var pending, all := a.Keys(), Visits(a.Keys(), a.Contents(), body);
    ghost var at: nat := 0;
    assert a.entries[0..] == a.entries;
    while key.Some?
      invariant a.Valid() && all == Before(visited, Visits(pending, a.Contents(), body))
      invariant if pending == [] then key.None? else key.Some? && Facing(a.entries, at, key.value, pending)
      decreases |pending|
    {
      var changes := body(key.value.text, ContentsOf(a.entries));
      var freed, next, nextAt := Turn(a, key.value, changes, at, pending);
      pending := if Removes(changes, key.value.text) then [] else Without(pending[1..], changes);
      BeforeNext(visited, key.value.text, Visits(pending, a.Contents(), body));
      visited := visited + [key.value.text];
      if freed {
        return visited, KeyFreed;
      }
      key, at := next, nextAt;
    }
    BeforeNone(visited, a.Contents());
    ending := Finished;
  }

  /** The turns before the rest of the loop. */
  function Before(visited: seq<string>, rest: Loop): Loop {
    rest.(visited := visited + rest.visited)
  }

  lemma BeforeNone(visited: seq<string>, contents: map<string, Cell>)
    ensures Before(visited, Loop([], Finished, contents)) == Loop(visited, Finished, contents)
  {
  }

  lemma BeforeAll(run: Loop)
    ensures Before([], run) == run
  {
  }

  lemma BeforeNext(visited: seq<string>, key: string, rest: Loop)
    ensures Before(visited + [key], rest) == Before(visited, rest.(visited := [key] + rest.visited))
      && [key] + [] == [key]
    ensures forall ending, contents ::
      Before(visited, Loop([key], ending, contents)) == Loop(visited + [key], ending, contents)
  {
    assert visited + [key] + rest.visited == visited + ([key] + rest.visited);
  }

  lemma NothingLeft(entries: seq<Entry>)
    ensures ContentsOf(entries) == map[] <==> entries == []
  {
    if entries != [] { assert entries[0].key in ContentsOf(entries); }
  }

  lemma HeadKey(entries: seq<Entry>, at: nat)
    requires at < |entries|
    ensures KeysOf(entries[at..]) == [entries[at].key] + KeysOf(entries[at + 1..])
  {
  }

  // ----- What the loop visits -----

  datatype TurnOf = TurnOf(key: string, changes: seq<Change>, contents: map<string, Cell>)

  /** The turns of the loop: what each changes, and what the array holds after it. */
  function Turns(pending: seq<string>, contents: map<string, Cell>, body: Body): seq<TurnOf>
    decreases |pending|
  {
    if pending == [] then [] else
    var changes := body(pending[0], contents);
    var later := AllMapped(contents, changes);
    [TurnOf(pending[0], changes, later)]
    + (if Removes(changes, pending[0]) then [] else Turns(Without(pending[1..], changes), later, body))
  }

  /** A body that deletes nothing visits every key there was, and the loop finishes. */
  lemma {:induction false} InsertionsVisitAll(keys: seq<string>, contents: map<string, Cell>, body: Body)
    requires forall t :: t in Turns(keys, contents, body) ==> forall k :: k in keys ==> !Removes(t.changes, k)
    ensures Visits(keys, contents, body).visited == keys && Visits(keys, contents, body).ending == Finished
    decreases |keys|
  {
    if keys != [] {
      var changes := body(keys[0], contents);
      var later, turns := AllMapped(contents, changes), Turns(keys, contents, body);
      assert turns[0] in turns && turns[0].changes == changes;
      assert keys[0] in keys && !Removes(changes, keys[0]);
      WithoutNone(keys[1..], changes);
      assert turns[1..] == Turns(keys[1..], later, body);
      InsertionsVisitAll(keys[1..], later, body);
    }
  }

  /** The keys of `keys` that are in `chosen`, in their order. */
  function Only(keys: seq<string>, chosen: seq<string>): seq<string> {
    if keys == [] then [] else (if keys[0] in chosen then [keys[0]] else []) + Only(keys[1..], chosen)
  }

  lemma {:induction false} WithoutKeeps(keys: seq<string>, changes: seq<Change>, k: string)
    requires Distinct(keys)
    ensures k in Without(keys, changes) <==> k in keys && !Removes(changes, k)
    ensures Distinct(Without(keys, changes))
    decreases keys
  {
    if keys != [] {
      var rest := keys[1..];
      assert forall i :: 0 <= i < |rest| ==> rest[i] == keys[i + 1];
      assert forall i :: 0 <= i < |rest| ==> rest[i] != keys[0];
      WithoutKeeps(rest, changes, k);
      WithoutKeeps(rest, changes, keys[0]);
      if !Removes(changes, keys[0]) { DistinctFront(keys[0], Without(rest, changes)); }
    }
  }

  lemma {:induction false} WithoutAt(keys: seq<string>, changes: seq<Change>, j: nat) returns (at: nat)
    requires j < |keys| && !Removes(changes, keys[j])
    ensures at < |Without(keys, changes)| && Without(keys, changes)[at] == keys[j]
    ensures forall k :: k in Without(keys, changes)[..at] <==> k in keys[..j] && !Removes(changes, k)
    decreases keys
  {
    var rest := Without(keys[1..], changes);
    if j == 0 {
      at := 0;
      assert keys[..0] == [] && Without(keys, changes)[..0] == [];
    } else {
      var n := WithoutAt(keys[1..], changes, j - 1);
      assert keys[..j] == [keys[0]] + keys[1..][..j - 1];
      if Removes(changes, keys[0]) {
        at := n;
        assert [] + rest == rest;
      } else {
        at := n + 1;
        assert ([keys[0]] + rest)[..at] == [keys[0]] + rest[..n];
      }
    }
  }

  /** A key is deleted by a turn whose key comes before it in the list. */
  ghost predicate DeletedEarlier(keys: seq<string>, turns: seq<TurnOf>, j: nat) {
    j < |keys| && exists i :: 0 <= i < |turns| && turns[i].key in keys[..j] && Removes(turns[i].changes, keys[j])
  }

  lemma {:induction false} MappedAway(contents: map<string, Cell>, changes: seq<Change>, k: string)
    requires k in contents && !Removes(changes, k)
    ensures k in AllMapped(contents, changes)
    decreases changes
  {
    if changes != [] {
      assert changes[0] in changes;
      MappedAway(Mapped(contents, changes[0]), changes[1..], k);
    }
  }

  lemma TailApart(keys: seq<string>)
    requires keys != [] && Distinct(keys)
    ensures Distinct(keys[1..]) && keys[0] !in keys[1..]
  {
    var rest := keys[1..];
    assert forall i :: 0 <= i < |rest| ==> rest[i] == keys[i + 1];
  }

  lemma {:induction false} OnlyChosen(keys: seq<string>, chosen: seq<string>, k: string)
    ensures k in Only(keys, chosen) ==> k in keys && k in chosen
  {
    if keys != [] { OnlyChosen(keys[1..], chosen, k); }
  }

  lemma {:induction false} OnlyBesides(keys: seq<string>, k: string, chosen: seq<string>)
    requires k !in keys
    ensures Only(keys, [k] + chosen) == Only(keys, chosen)
  {
    if keys != [] { OnlyBesides(keys[1..], k, chosen); }
  }

  lemma {:induction false} OnlyNone(keys: seq<string>)
    ensures Only(keys, []) == []
  {
    if keys != [] { OnlyNone(keys[1..]); }
  }

  /** Keys that are taken away are not chosen anyway. */
  lemma {:induction false} OnlyWithout(keys: seq<string>, changes: seq<Change>, chosen: seq<string>)
    requires forall k :: k in chosen ==> !Removes(changes, k)
    ensures Only(Without(keys, changes), chosen) == Only(keys, chosen)
  {
    if keys != [] {
      var rest := Without(keys[1..], changes);
      OnlyWithout(keys[1..], changes, chosen);
      if Removes(changes, keys[0]) {
        assert [] + rest == rest && [] + Only(rest, chosen) == Only(rest, chosen);
      } else {
        assert ([keys[0]] + rest)[1..] == rest;
      }
    }
  }

  /** The first key, and those chosen of the keys after it that are not taken away. */
  lemma OnlyFirst(keys: seq<string>, changes: seq<Change>, chosen: seq<string>)
    requires keys != [] && Distinct(keys) && Distinct(chosen) && chosen == Only(Without(keys[1..], changes), chosen)
    ensures Distinct([keys[0]] + chosen) && [keys[0]] + chosen == Only(keys, [keys[0]] + chosen)
  {
    var rest := Without(keys[1..], changes);
    TailApart(keys);
    forall k | k in chosen
      ensures k in keys[1..] && !Removes(changes, k)
    {
      OnlyChosen(rest, chosen, k);
      WithoutKeeps(keys[1..], changes, k);
    }
    OnlyWithout(keys[1..], changes, chosen);
    OnlyBesides(keys[1..], keys[0], chosen);
    DistinctFront(keys[0], chosen);
  }

  lemma OnlyNothing()
    ensures Distinct([]) && Only([], []) == []
  {
  }

  /** The turns are the visits, in the order of the list and once each. */
  lemma {:induction false} VisitsAreTurns(keys: seq<string>, contents: map<string, Cell>, body: Body)
    requires Distinct(keys)
    ensures
      var visited, turns := Visits(keys, contents, body).visited, Turns(keys, contents, body);
      && |turns| == |visited| && (forall i :: 0 <= i < |turns| ==> turns[i].key == visited[i])
      && Distinct(visited) && visited == Only(keys, visited)
    decreases |keys|
  {
    hide Distinct, Without, AllMapped, Removes, Only;
    OnlyNothing();
    if keys != [] {
      var changes := body(keys[0], contents);
      var later, rest := AllMapped(contents, changes), Without(keys[1..], changes);
      TailApart(keys);
      if Removes(changes, keys[0]) {
        OnlyNone(rest);
        OnlyFirst(keys, changes, []);
        assert [keys[0]] + [] == [keys[0]];
      } else {
        WithoutDistinct(keys[1..], changes);
        VisitsAreTurns(rest, later, body);
        OnlyFirst(keys, changes, Visits(rest, later, body).visited);
      }
    }
  }

  ghost predicate FreesKey(t: TurnOf) {
    Removes(t.changes, t.key) && t.contents != map[]
  }

  /** The loop asks for the key after one that is gone exactly if a turn deletes its own key and
      leaves something in the array. */
  lemma {:induction false} FreedExactly(keys: seq<string>, contents: map<string, Cell>, body: Body)
    ensures Visits(keys, contents, body).ending.KeyFreed? <==> exists t ::
      t in Turns(keys, contents, body) && FreesKey(t)
    decreases |keys|
  {
    if keys != [] {
      var changes := body(keys[0], contents);
      var later, rest := AllMapped(contents, changes), Without(keys[1..], changes);
      var first := TurnOf(keys[0], changes, later);
      if Removes(changes, keys[0]) {
        assert Turns(keys, contents, body) == [first] && first in [first];
      } else {
        FreedExactly(rest, later, body);
        assert forall t :: t in [first] + Turns(rest, later, body) <==> t == first || t in Turns(rest, later, body);
      }
    }
  }

  lemma WithoutDistinct(keys: seq<string>, changes: seq<Change>)
    requires Distinct(keys)
    ensures Distinct(Without(keys, changes))
  {
    WithoutKeeps(keys, changes, "");
  }

  lemma TurnsWithin(keys: seq<string>, contents: map<string, Cell>, body: Body)
    requires Distinct(keys)
    ensures forall t :: t in Turns(keys, contents, body) ==> t.key in keys
    ensures forall k :: k in Visits(keys, contents, body).visited ==> k in keys
  {
    var run := Visits(keys, contents, body);
    VisitsAreTurns(keys, contents, body);
    forall k | k in run.visited
      ensures k in keys
    {
      OnlyChosen(keys, run.visited, k);
    }
  }

  /** What is deleted before it is reached is deleted by the first turn, or so for the rest. */
  lemma DeletedByRest(keys: seq<string>, first: TurnOf, more: seq<TurnOf>, j: nat, at: nat)
    requires 0 < j < |keys| && first.key == keys[0] && !Removes(first.changes, keys[j])
    requires
      var rest := Without(keys[1..], first.changes);
      && (forall t :: t in more ==> t.key in rest) && at < |rest| && rest[at] == keys[j]
      && (forall k :: k in rest ==> !Removes(first.changes, k) && k != keys[0])
      && (forall k :: k in rest[..at] <==> k in keys[1..][..j - 1] && !Removes(first.changes, k))
    ensures DeletedEarlier(keys, [first] + more, j) <==> DeletedEarlier(Without(keys[1..], first.changes), more, at)
  {
    var rest, turns := Without(keys[1..], first.changes), [first] + more;
    assert keys[..j] == [keys[0]] + keys[1..][..j - 1];
    if i :| 0 <= i < |turns| && turns[i].key in keys[..j] && Removes(turns[i].changes, keys[j]) {
      assert more[i - 1] in more;
      assert more[i - 1].key in rest[..at];
    }
    if i :| 0 <= i < |more| && more[i].key in rest[..at] && Removes(more[i].changes, rest[at]) {
      assert turns[i + 1] == more[i];
    }
  }

  /** A loop that finishes visits exactly the keys there were at its start that no turn deletes before
      they are reached; one that does not finish has visited no other either. */
  lemma {:induction false} VisitedExactly(keys: seq<string>, contents: map<string, Cell>, body: Body, j: nat)
    requires Distinct(keys) && (forall k :: k in keys ==> k in contents) && j < |keys|
    ensures
      var run, turns := Visits(keys, contents, body), Turns(keys, contents, body);
      && (keys[j] in run.visited ==> !DeletedEarlier(keys, turns, j))
      && (run.ending.Finished? && !DeletedEarlier(keys, turns, j) ==> keys[j] in run.visited)
    decreases |keys|
  {
    hide Distinct, Without, AllMapped, DeletedEarlier, Removes;
    var changes := body(keys[0], contents);
    var later, rest := AllMapped(contents, changes), Without(keys[1..], changes);
    var first, more := TurnOf(keys[0], changes, later), Turns(rest, later, body);
    RestOf(keys, contents, changes);
    TurnsWithin(rest, later, body);
    if j == 0 {
      NoneEarlier(keys, Turns(keys, contents, body));
    } else {
      assert keys[j] == keys[1..][j - 1] && keys[0] != keys[j];
      if Removes(changes, keys[j]) {
        FirstDeletes(keys, contents, body, j);
      } else if !Removes(changes, keys[0]) {
        var at := WithoutAt(keys[1..], changes, j - 1);
        DeletedByRest(keys, first, more, j, at);
        VisitedExactly(rest, later, body, at);
        assert Turns(keys, contents, body) == [first] + more;
      } else {
        MappedAway(contents, changes, keys[j]);
      }
    }
  }

  /** What is left after the first turn: keys of the list that it did not delete, all in the array. */
  lemma RestOf(keys: seq<string>, contents: map<string, Cell>, changes: seq<Change>)
    requires keys != [] && Distinct(keys) && forall k :: k in keys ==> k in contents
    ensures
      var rest := Without(keys[1..], changes);
      && Distinct(rest) && keys[0] !in keys[1..] && |rest| < |keys|
      && (forall k :: k in rest <==> k in keys[1..] && !Removes(changes, k))
      && (forall k :: k in rest ==> k in AllMapped(contents, changes))
  {
    hide Distinct, Without, AllMapped, Removes;
    var rest := Without(keys[1..], changes);
    TailApart(keys);
    WithoutDistinct(keys[1..], changes);
    forall k
      ensures k in rest <==> k in keys[1..] && !Removes(changes, k)
      ensures k in rest ==> k in AllMapped(contents, changes)
    {
      WithoutKeeps(keys[1..], changes, k);
      if k in rest { MappedAway(contents, changes, k); }
    }
  }

  lemma NoneEarlier(keys: seq<string>, turns: seq<TurnOf>)
    ensures !DeletedEarlier(keys, turns, 0)
  {
  }

  lemma FirstDeletes(keys: seq<string>, contents: map<string, Cell>, body: Body, j: nat)
    requires 0 < j < |keys| && Removes(body(keys[0], contents), keys[j])
    ensures DeletedEarlier(keys, Turns(keys, contents, body), j)
  {
    var t := Turns(keys, contents, body)[0];
    assert keys[..j][0] == keys[0] && t.key in keys[..j];
  }
}
