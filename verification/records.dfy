/**
 * Ordered lists of id-tagged records. Every list the UI keeps — tasks, clients and the rows
 * of the fixed-schema table — stores records built as `{ ...fields, id }`, is appended to at
 * the end, is filtered by id to delete (`list.filter(x => x.id !== id)`) and is searched for
 * the first record with an id (`list.find(x => x.id === id)`).
 */
module Records {
  import opened Wrappers

  /** A record: its id and the rest of its fields. */
  datatype Entry<K, V> = Entry(id: K, fields: V)

  ghost predicate HasId<K, V>(rs: seq<Entry<K, V>>, id: K) {
    exists i | 0 <= i < |rs| :: rs[i].id == id
  }

  /** No two records of the list share an id. */
  ghost predicate UniqueIds<K, V>(rs: seq<Entry<K, V>>) {
    forall i, j | 0 <= i < j < |rs| :: rs[i].id != rs[j].id
  }

  /**
   * `rs.filter(x => x.id !== id)`: no record with that id is left, and every other record
   * keeps its number of occurrences.
   */
  function RemoveId<K(==), V>(rs: seq<Entry<K, V>>, id: K): (r: seq<Entry<K, V>>)
    ensures |r| <= |rs|
    ensures forall i | 0 <= i < |r| :: r[i].id != id
    ensures multiset(r) <= multiset(rs)
    ensures forall i | 0 <= i < |rs| && rs[i].id != id :: multiset(r)[rs[i]] == multiset(rs)[rs[i]]
  {
    if rs == [] then []
    else
      assert rs == [rs[0]] + rs[1..];
      if rs[0].id == id then RemoveId(rs[1..], id) else [rs[0]] + RemoveId(rs[1..], id)
  }

  /**
   * `rs.find(x => x.id === id)`: nothing exactly when no record has the id, otherwise the
   * record at the first position holding it.
   */
  function FindId<K(==), V>(rs: seq<Entry<K, V>>, id: K): (r: Option<Entry<K, V>>)
    ensures r.None? <==> !HasId(rs, id)
    ensures r.Some? ==> exists i | 0 <= i < |rs| ::
      rs[i] == r.value && rs[i].id == id && forall j | 0 <= j < i :: rs[j].id != id
  {
    if rs == [] then None
    else if rs[0].id == id then Some(rs[0])
    else
      var r := FindId(rs[1..], id);
      assert forall i | 0 < i < |rs| :: rs[i] == rs[1..][i - 1];
      r
  }

  /** The id occurs in a non-empty list when the head or the tail has it. */
  lemma HasIdCons<K, V>(rs: seq<Entry<K, V>>, id: K)
    requires rs != []
    ensures HasId(rs, id) <==> rs[0].id == id || HasId(rs[1..], id)
  {
  }

  /** Filtering distributes over concatenation: the kept records stay in their order. */
  lemma {:induction false} RemoveIdAppend<K, V>(a: seq<Entry<K, V>>, b: seq<Entry<K, V>>, id: K)
    ensures RemoveId(a + b, id) == RemoveId(a, id) + RemoveId(b, id)
  {
    if a == [] {
      assert a + b == b;
    } else {
      assert (a + b)[0] == a[0];
      assert (a + b)[1..] == a[1..] + b;
      RemoveIdAppend(a[1..], b, id);
    }
  }

  /** Removing changes the list exactly when some record has the id. */
  lemma {:induction false} RemoveIdUnchangedIff<K, V>(rs: seq<Entry<K, V>>, id: K)
    ensures RemoveId(rs, id) == rs <==> !HasId(rs, id)
  {
    if rs != [] {
      RemoveIdUnchangedIff(rs[1..], id);
      HasIdCons(rs, id);
      if rs[0].id == id {
        assert |RemoveId(rs, id)| < |rs|;
      }
    }
  }

  /** Removing the same id twice is removing it once. */
  lemma RemoveIdIdempotent<K, V>(rs: seq<Entry<K, V>>, id: K)
    ensures RemoveId(RemoveId(rs, id), id) == RemoveId(rs, id)
  {
    RemoveIdUnchangedIff(RemoveId(rs, id), id);
  }

  /** Removing an id that was just appended with a fresh id gives back the list before. */
  lemma RemoveAfterAppendFresh<K, V>(rs: seq<Entry<K, V>>, e: Entry<K, V>)
    requires !HasId(rs, e.id)
    ensures RemoveId(rs + [e], e.id) == rs
  {
    RemoveIdAppend(rs, [e], e.id);
    RemoveIdUnchangedIff(rs, e.id);
  }

  /**
   * Looking up after an append finds the earlier record when there is one, and otherwise
   * the appended record if it carries the id.
   */
  lemma {:induction false} FindAfterAppend<K, V>(rs: seq<Entry<K, V>>, e: Entry<K, V>, id: K)
    ensures FindId(rs + [e], id) ==
      if HasId(rs, id) then FindId(rs, id) else if e.id == id then Some(e) else None
  {
    if rs != [] {
      assert (rs + [e])[0] == rs[0];
      assert (rs + [e])[1..] == rs[1..] + [e];
      FindAfterAppend(rs[1..], e, id);
      HasIdCons(rs, id);
    }
  }

  /** A record appended under a fresh id is what the lookup returns for that id. */
  lemma FindAfterAppendFresh<K, V>(rs: seq<Entry<K, V>>, id: K, fields: V)
    requires !HasId(rs, id)
    ensures FindId(rs + [Entry(id, fields)], id) == Some(Entry(id, fields))
  {
    FindAfterAppend(rs, Entry(id, fields), id);
  }

  /** Appending a record with a fresh id keeps the ids unique. */
  lemma AppendFreshKeepsUnique<K, V>(rs: seq<Entry<K, V>>, e: Entry<K, V>)
    requires UniqueIds(rs) && !HasId(rs, e.id)
    ensures UniqueIds(rs + [e])
  {
  }

  /** Every id left after a removal was already in the list. */
  lemma RemoveIdKeepsNoNewId<K, V>(rs: seq<Entry<K, V>>, id: K, x: K)
    requires HasId(RemoveId(rs, id), x)
    ensures HasId(rs, x)
  {
    var rest := RemoveId(rs, id);
    var i :| 0 <= i < |rest| && rest[i].id == x;
    assert multiset(rest)[rest[i]] > 0;
    var j :| 0 <= j < |rs| && rs[j] == rest[i];
  }

  /** A list with unique ids splits into a head whose id is not in the tail, and a unique tail. */
  lemma UniqueIdsCons<K, V>(rs: seq<Entry<K, V>>)
    requires rs != [] && UniqueIds(rs)
    ensures UniqueIds(rs[1..]) && !HasId(rs[1..], rs[0].id)
  {
  }

  /**
   * On a list with unique ids, removal keeps the ids unique and shortens the list by one
   * exactly when the id was present.
   */
  lemma {:induction false} RemoveFromUnique<K, V>(rs: seq<Entry<K, V>>, id: K)
    requires UniqueIds(rs)
    ensures UniqueIds(RemoveId(rs, id))
    ensures |RemoveId(rs, id)| == if HasId(rs, id) then |rs| - 1 else |rs|
  {
    if rs != [] {
      var tail := rs[1..];
      UniqueIdsCons(rs);
      RemoveFromUnique(tail, id);
      HasIdCons(rs, id);
      var rest := RemoveId(tail, id);
      if rs[0].id == id {
        RemoveIdUnchangedIff(tail, id);
      } else {
        if HasId(rest, rs[0].id) {
          RemoveIdKeepsNoNewId(tail, id, rs[0].id);
        }
        ConsKeepsUnique(rs[0], rest);
      }
    }
  }

  lemma ConsKeepsUnique<K, V>(e: Entry<K, V>, rs: seq<Entry<K, V>>)
    requires UniqueIds(rs) && !HasId(rs, e.id)
    ensures UniqueIds([e] + rs)
  {
  }
}
