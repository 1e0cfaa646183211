/** Associative arrays: a list of entries with new ones put in front. A key handed out is the entry's
    own copy, which goes with the entry. */
module Arrays {
  import opened Options
  import opened Syntax

  datatype Cell = Cell(value: string, number: Double)

  // ----- The array as a list of keys and a map -----

  predicate Distinct(keys: seq<string>) {
    forall i, j :: 0 <= i < j < |keys| ==> keys[i] != keys[j]
  }

  // ----- The list -----

  /** `id` tells entries apart, also one deleted from one made later for the same key. */
  datatype Entry = Entry(id: nat, key: string, cell: Cell)

  function KeysOf(entries: seq<Entry>): (keys: seq<string>)
    ensures |keys| == |entries| && forall i :: 0 <= i < |entries| ==> keys[i] == entries[i].key
  {
    seq(|entries|, i requires 0 <= i < |entries| => entries[i].key)
  }

  /** The map the entries stand for. */
  function ContentsOf(entries: seq<Entry>): map<string, Cell> {
    if entries == [] then map[] else ContentsOf(entries[1..])[entries[0].key := entries[0].cell]
  }

  lemma {:induction false} ContentsAt(entries: seq<Entry>, i: nat)
    requires Distinct(KeysOf(entries)) && i < |entries|
    ensures entries[i].key in ContentsOf(entries) && ContentsOf(entries)[entries[i].key] == entries[i].cell
    decreases entries
  {
    if i > 0 {
      assert KeysOf(entries)[0] != KeysOf(entries)[i];
      TailDistinct(entries);
      ContentsAt(entries[1..], i - 1);
    }
  }

  lemma TailDistinct(entries: seq<Entry>)
    requires entries != [] && Distinct(KeysOf(entries))
    ensures Distinct(KeysOf(entries[1..])) && entries[0].key !in KeysOf(entries[1..])
  {
    var keys, rest := KeysOf(entries), KeysOf(entries[1..]);
    assert forall i :: 0 <= i < |rest| ==> rest[i] == keys[i + 1];
  }

  lemma {:induction false} ContentsKeys(entries: seq<Entry>, key: string)
    ensures key in ContentsOf(entries) <==> key in KeysOf(entries)
    decreases entries
  {
    if entries != [] {
      ContentsKeys(entries[1..], key);
      assert KeysOf(entries) == [entries[0].key] + KeysOf(entries[1..]);
    }
  }

  lemma {:induction false} ContentsUpdate(entries: seq<Entry>, i: nat, cell: Cell)
    requires Distinct(KeysOf(entries)) && i < |entries|
    ensures
      var later := entries[i := entries[i].(cell := cell)];
      KeysOf(later) == KeysOf(entries) && ContentsOf(later) == ContentsOf(entries)[entries[i].key := cell]
    decreases entries
  {
    var later := entries[i := entries[i].(cell := cell)];
    if i > 0 {
      assert KeysOf(entries)[0] != KeysOf(entries)[i];
      TailDistinct(entries);
      assert later[1..] == entries[1..][i - 1 := entries[i].(cell := cell)];
      ContentsUpdate(entries[1..], i - 1, cell);
    } else {
      assert later[1..] == entries[1..];
    }
  }

  lemma KeysDelete(entries: seq<Entry>, i: nat)
    requires Distinct(KeysOf(entries)) && i < |entries|
    ensures
      var later := entries[..i] + entries[i + 1..];
      KeysOf(later) == KeysOf(entries)[..i] + KeysOf(entries)[i + 1..] && Distinct(KeysOf(later))
  {
  }

  lemma {:induction false} ContentsDelete(entries: seq<Entry>, i: nat)
    requires Distinct(KeysOf(entries)) && i < |entries|
    ensures ContentsOf(entries[..i] + entries[i + 1..]) == ContentsOf(entries) - {entries[i].key}
    decreases entries
  {
    var later := entries[..i] + entries[i + 1..];
    TailDistinct(entries);
    if i > 0 {
      assert KeysOf(entries)[0] != KeysOf(entries)[i];
      hide KeysOf, Distinct;
      ContentsDelete(entries[1..], i - 1);
      assert later[0] == entries[0] && later[1..] == entries[1..][..i - 1] + entries[1..][i..];
    } else {
      assert later == entries[1..];
      ContentsKeys(entries[1..], entries[0].key);
    }
  }

  // ----- Changes to the list -----

  datatype Change = Put(key: string, cell: Cell) | Remove(key: string) | RemoveAll

  /** The entries and the id the next new one gets. */
  datatype List = List(entries: seq<Entry>, nextId: nat) {
    ghost predicate Valid() {
      Distinct(KeysOf(entries)) && Numbered(entries, nextId)
    }
  }

  ghost predicate Numbered(entries: seq<Entry>, nextId: nat) {
    && (forall i :: 0 <= i < |entries| ==> entries[i].id < nextId)
    && (forall i, j :: 0 <= i < j < |entries| ==> entries[i].id != entries[j].id)
  }

  lemma StillNumbered(entries: seq<Entry>, nextId: nat, e: Entry, i: nat)
    requires Numbered(entries, nextId)
    ensures e.id == nextId ==> Numbered([e] + entries, nextId + 1)
    ensures i < |entries| ==> Numbered(entries[..i] + entries[i + 1..], nextId)
    ensures i < |entries| && e.id == entries[i].id ==> Numbered(entries[i := e], nextId)
  {
  }

  /** Where `key` is in the list; past its end if it is not there. */
  function IndexOf(entries: seq<Entry>, key: string): (at: nat)
    ensures at <= |entries| && (at < |entries| ==> entries[at].key == key) && forall i ::
      0 <= i < at ==> entries[i].key != key
  {
    if entries == [] || entries[0].key == key then 0 else
    var at := 1 + IndexOf(entries[1..], key);
    assert forall i :: 1 <= i < |entries| ==> entries[i] == entries[1..][i - 1];
    at
  }

  /** Update in place or put in front; delete one entry; delete all. */
  function Changed(l: List, change: Change): List {
    match change
    case Put(key, cell) =>
      var at := IndexOf(l.entries, key);
      if at < |l.entries| then l.(entries := l.entries[at := l.entries[at].(cell := cell)])
      else List([Entry(l.nextId, key, cell)] + l.entries, l.nextId + 1)
    case Remove(key) =>
      var at := IndexOf(l.entries, key);
      if at < |l.entries| then l.(entries := l.entries[..at] + l.entries[at + 1..]) else l
    case RemoveAll => l.(entries := [])
  }

  /** The same changes to the map. */
  function Mapped(contents: map<string, Cell>, change: Change): map<string, Cell> {
    match change
    case Put(key, cell) => contents[key := cell]
    case Remove(key) => contents - {key}
    case RemoveAll => map[]
  }

  lemma PutNew(l: List, key: string, cell: Cell)
    requires l.Valid() && key !in KeysOf(l.entries)
    ensures
      var e := Entry(l.nextId, key, cell);
      List([e] + l.entries, l.nextId + 1).Valid() && ContentsOf([e] + l.entries) == ContentsOf(l.entries)[key := cell]
  {
    var e := Entry(l.nextId, key, cell);
    var later := [e] + l.entries;
    assert later[1..] == l.entries;
    assert ContentsOf(later) == ContentsOf(l.entries)[key := cell];
    assert KeysOf(later) == [key] + KeysOf(l.entries);
    StillNumbered(l.entries, l.nextId, e, 0);
    hide ContentsOf, KeysOf, Numbered, Distinct;
    DistinctFront(key, KeysOf(l.entries));
  }

  lemma DistinctFront(key: string, keys: seq<string>)
    requires Distinct(keys) && key !in keys
    ensures Distinct([key] + keys)
  {
  }

  lemma PutOld(l: List, at: nat, cell: Cell)
    requires l.Valid() && at < |l.entries|
    ensures
      var later := l.entries[at := l.entries[at].(cell := cell)];
      l.(entries := later).Valid() && ContentsOf(later) == ContentsOf(l.entries)[l.entries[at].key := cell]
  {
    ContentsUpdate(l.entries, at, cell);
    StillNumbered(l.entries, l.nextId, l.entries[at].(cell := cell), at);
    hide ContentsOf, KeysOf, Numbered, Distinct;
  }

  lemma RemoveOld(l: List, at: nat)
    requires l.Valid() && at < |l.entries|
    ensures
      var later := l.entries[..at] + l.entries[at + 1..];
      l.(entries := later).Valid() && ContentsOf(later) == ContentsOf(l.entries) - {l.entries[at].key}
  {
    KeysDelete(l.entries, at);
    ContentsDelete(l.entries, at);
    StillNumbered(l.entries, l.nextId, l.entries[at], at);
    hide ContentsOf, KeysOf, Distinct, Numbered;
  }

  lemma ChangedMaps(l: List, change: Change)
    requires l.Valid()
    ensures Changed(l, change).Valid()
      && ContentsOf(Changed(l, change).entries) == Mapped(ContentsOf(l.entries), change)
  {
    if !change.RemoveAll? {
      var at := IndexOf(l.entries, change.key);
      if at < |l.entries| {
        if change.Put? { PutOld(l, at, change.cell); } else { RemoveOld(l, at); }
      } else {
        ContentsKeys(l.entries, change.key);
        if change.Put? { PutNew(l, change.key, change.cell); }
        hide ContentsOf, KeysOf, Distinct, Numbered;
      }
    }
  }

  /** A key handed out: the text in its entry. */
  datatype Handle = Handle(id: nat, text: string)

  function HandleOf(e: Entry): Handle {
    Handle(e.id, e.key)
  }

  /** The entry a key was handed out from is still there, and so is its text. */
  predicate Live(entries: seq<Entry>, handle: Handle) {
    exists i :: 0 <= i < |entries| && HandleOf(entries[i]) == handle
  }

  lemma OneIndex(entries: seq<Entry>, i: nat)
    requires Distinct(KeysOf(entries)) && i < |entries|
    ensures i == IndexOf(entries, entries[i].key)
  {
    var at := IndexOf(entries, entries[i].key);
    assert at < |entries| && KeysOf(entries)[at] == KeysOf(entries)[i];
  }

  lemma KeysRemoved(l: List, key: string)
    requires l.Valid()
    ensures
      var keys, later, at := KeysOf(l.entries), KeysOf(Changed(l, Remove(key)).entries), IndexOf(l.entries, key);
      && (at < |l.entries| <==> key in keys)
      && later == (if at == |keys| then keys else keys[..at] + keys[at + 1..])
      && forall i :: 0 <= i < |keys| && keys[i] == key ==> i == at
  {
    var at := IndexOf(l.entries, key);
    if at < |l.entries| {
      KeysDelete(l.entries, at);
      assert KeysOf(l.entries)[at] == key;
    }
  }

  class Array {
    var entries: seq<Entry>
    var nextId: nat

    constructor ()
      ensures Valid() && Keys() == [] && Contents() == map[]
    {
      entries, nextId := [], 0;
    }

    ghost predicate Valid()
      reads this
    {
      Now().Valid()
    }

    ghost function Now(): List
      reads this
    {
      List(entries, nextId)
    }

    ghost function Keys(): (keys: seq<string>)
      reads this
    {
      KeysOf(entries)
    }

    ghost function Contents(): map<string, Cell>
      reads this
    {
      ContentsOf(entries)
    }

    /** Where `key` is in the list, if it is there. */
    method Find(key: string) returns (at: nat)
      requires Valid()
      ensures at == IndexOf(entries, key) && (at < |entries| <==> key in Contents())
      ensures at < |entries| ==> Contents()[key] == entries[at].cell
    {
      at := 0;
      while at < |entries|
        invariant at <= |entries| && forall i :: 0 <= i < at ==> entries[i].key != key
      {
        if entries[at].key == key {
          ContentsAt(entries, at);
          return;
        }
        at := at + 1;
      }
      ContentsKeys(entries, key);
    }

    /** A key that is not there is not put there by asking. */
    method Get(key: string) returns (cell: Option<Cell>)
      requires Valid()
      ensures cell == if key in Contents() then Some(Contents()[key]) else None
    {
      var at := Find(key);
      cell := if at == |entries| then None else Some(entries[at].cell);
    }

    /** Update in place, or a new entry in front. */
    method Set(key: string, cell: Cell)
      requires Valid()
      modifies this
      ensures Valid() && Now() == Changed(old(Now()), Put(key, cell)) && Contents() == old(Contents())[key := cell]
      ensures Keys() == if key in old(Keys()) then old(Keys()) else [key] + old(Keys())
    {
      ChangedMaps(Now(), Put(key, cell));
      KeysPut(Now(), key, cell);
      var at := Find(key);
      if at < |entries| {
        entries := entries[at := entries[at].(cell := cell)];
      } else {
        entries := [Entry(nextId, key, cell)] + entries;
        nextId := nextId + 1;
      }
    }

    method Delete(key: string)
      requires Valid()
      modifies this
      ensures Valid() && Now() == Changed(old(Now()), Remove(key)) && Contents() == old(Contents()) - {key}
      ensures key !in old(Keys()) ==> Keys() == old(Keys())
      ensures forall i :: 0 <= i < |old(Keys())| && old(Keys())[i] == key ==>
        Keys() == old(Keys())[..i] + old(Keys())[i + 1..]
    {
      ChangedMaps(Now(), Remove(key));
      KeysRemoved(Now(), key);
      hide KeysOf, ContentsOf, Distinct, Numbered, IndexOf;
      var at := Find(key);
      if at < |entries| {
        entries := entries[..at] + entries[at + 1..];
      }
    }

    method Clear()
      requires Valid()
      modifies this
      ensures Valid() && Now() == Changed(old(Now()), RemoveAll) && Contents() == map[]
    {
      entries := [];
    }

    method Length() returns (count: nat)
      requires Valid()
      ensures count == |Contents()|
    {
      count := |entries|;
      forall k
        ensures k in Contents() <==> k in Keys()
      {
        ContentsKeys(entries, k);
      }
      SameSize(Keys(), Contents().Keys);
    }

    method FirstKey() returns (key: Option<Handle>)
      ensures key == if entries == [] then None else Some(HandleOf(entries[0]))
    {
      key := if entries == [] then None else Some(HandleOf(entries[0]));
    }

    /** The key after one handed out before. Its text is compared with every key up to it, so its
        entry must still be there if any is. */
    method NextKey(current: Handle) returns (key: Option<Handle>)
      requires Valid() && (entries == [] || Live(entries, current))
      ensures entries == [] ==> key == None
      ensures forall i :: 0 <= i < |entries| && HandleOf(entries[i]) == current ==>
        key == if i + 1 < |entries| then Some(HandleOf(entries[i + 1])) else None
    {
      if entries == [] {
        return None;
      }
      hide Distinct, Numbered, KeysOf, ContentsOf;
      forall i | 0 <= i < |entries| && HandleOf(entries[i]) == current
        ensures i == IndexOf(entries, current.text)
      {
        OneIndex(entries, i);
      }
      var at := Find(current.text);
      key := if at + 1 == |entries| then None else Some(HandleOf(entries[at + 1]));
    }
  }

  lemma KeysPut(l: List, key: string, cell: Cell)
    requires l.Valid()
    ensures KeysOf(Changed(l, Put(key, cell)).entries) == if key in KeysOf(l.entries) then KeysOf(l.entries)
      else [key] + KeysOf(l.entries)
  {
    var at := IndexOf(l.entries, key);
    if at < |l.entries| { assert KeysOf(l.entries)[at] == key; }
  }

  lemma {:induction false} SameSize(keys: seq<string>, all: set<string>)
    requires Distinct(keys) && (forall k :: k in keys <==> k in all)
    ensures |all| == |keys|
    decreases keys
  {
    if keys == [] {
      assert all == {};
    } else {
      var rest := keys[1..];
      forall i, j | 0 <= i < j < |rest|
        ensures rest[i] != rest[j]
      {
        assert keys[i + 1] != keys[j + 1];
      }
      assert keys == [keys[0]] + rest;
      forall i | 0 <= i < |rest|
        ensures rest[i] != keys[0]
      {
        assert keys[0] != keys[i + 1];
      }
      SameSize(rest, all - {keys[0]});
    }
  }
}
