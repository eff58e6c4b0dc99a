/** What renaming does to a list of call ids and to the references to them, for any naming scheme. */
module Renamings {

  /** Which ids are renamed, and the n-th new id. */
  datatype Scheme = Scheme(foreign: string -> bool, newId: nat -> string)

  /** New ids are all different, non-empty, and not renamed again. */
  ghost predicate Fresh(s: Scheme) {
    && (forall m: nat, n: nat :: s.newId(m) == s.newId(n) ==> m == n)
    && (forall n: nat :: !s.foreign(s.newId(n)) && s.newId(n) != "")
  }

  /** The counter after walking over these ids. */
  function Count(s: Scheme, ids: seq<string>): (n: nat)
    ensures n <= |ids|
  {
    if ids == [] then 0 else Count(s, ids[..|ids| - 1]) + if s.foreign(ids[|ids| - 1]) then 1 else 0
  }

  /** The ids after the walk: each foreign one takes the next proxy id. */
  function NewIds(s: Scheme, ids: seq<string>): (r: seq<string>)
    ensures |r| == |ids|
  {
    if ids == [] then []
    else
      var last := ids[|ids| - 1];
      NewIds(s, ids[..|ids| - 1]) + [if s.foreign(last) then s.newId(Count(s, ids)) else last]
  }

  /** What a foreign id was last renamed to. */
  function Renaming(s: Scheme, ids: seq<string>): map<string, string> {
    if ids == [] then map[]
    else
      var before, last := Renaming(s, ids[..|ids| - 1]), ids[|ids| - 1];
      if s.foreign(last) then before[last := s.newId(Count(s, ids))] else before
  }

  function Rename(renaming: map<string, string>, ref: string): string {
    if ref in renaming then renaming[ref] else ref
  }

  lemma CountSnoc(s: Scheme, ids: seq<string>, id: string)
    ensures Count(s, ids + [id]) == Count(s, ids) + if s.foreign(id) then 1 else 0
    ensures NewIds(s, ids + [id]) == NewIds(s, ids) + [if s.foreign(id) then s.newId(Count(s, ids) + 1) else id]
    ensures Renaming(s, ids + [id])
         == if s.foreign(id) then Renaming(s, ids)[id := s.newId(Count(s, ids) + 1)] else Renaming(s, ids)
  {
  }

  lemma {:induction false} CountGrows(s: Scheme, ids: seq<string>, i: nat, j: nat)
    requires i <= j <= |ids|
    ensures Count(s, ids[..i]) <= Count(s, ids[..j])
    ensures i < j && s.foreign(ids[j - 1]) ==> Count(s, ids[..i]) < Count(s, ids[..j])
    decreases j
  {
    if i < j {
      CountGrows(s, ids, i, j - 1);
      assert ids[..j][..j - 1] == ids[..j - 1];
    }
  }

  lemma {:induction false} NewIdAt(s: Scheme, ids: seq<string>, k: nat)
    requires k < |ids|
    ensures NewIds(s, ids)[k] == if s.foreign(ids[k]) then s.newId(Count(s, ids[..k + 1])) else ids[k]
  {
    if k < |ids| - 1 {
      NewIdAt(s, ids[..|ids| - 1], k);
      assert ids[..|ids| - 1][..k + 1] == ids[..k + 1];
    } else {
      assert ids[..k + 1] == ids;
    }
  }

  /** Position of the last occurrence. */
  function LastIndex(ids: seq<string>, id: string): (k: nat)
    requires id in ids
    ensures k < |ids| && ids[k] == id && forall j :: k < j < |ids| ==> ids[j] != id
  {
    if ids[|ids| - 1] == id then |ids| - 1 else LastIndex(ids[..|ids| - 1], id)
  }

  /** A foreign id is renamed to what its last occurrence was renamed to; nothing else is renamed. */
  lemma {:induction false} RenamingIsLast(s: Scheme, ids: seq<string>, id: string)
    ensures id in Renaming(s, ids) <==> s.foreign(id) && id in ids
    ensures id in Renaming(s, ids) ==> Renaming(s, ids)[id] == NewIds(s, ids)[LastIndex(ids, id)]
  {
    if ids != [] {
      RenamingIsLast(s, ids[..|ids| - 1], id);
    }
  }

  /** New ids are never foreign, and never empty unless the id was. */
  lemma NewIdsAreNative(s: Scheme, ids: seq<string>, id: string)
    requires Fresh(s) && id in NewIds(s, ids)
    ensures !s.foreign(id) && (id == "" ==> "" in ids)
  {
  }

  /** Foreign ids occur at most once. */
  predicate ForeignDistinct(s: Scheme, ids: seq<string>) {
    forall i, j :: 0 <= i < j < |ids| && s.foreign(ids[i]) ==> ids[i] != ids[j]
  }

  /** A foreign id gets one of the new ids handed out during the walk. */
  lemma CountInRange(s: Scheme, ids: seq<string>, k: nat)
    requires k < |ids| && s.foreign(ids[k])
    ensures 1 <= Count(s, ids[..k + 1]) <= Count(s, ids)
  {
    CountGrows(s, ids, k, k + 1);
    CountGrows(s, ids, k + 1, |ids|);
    assert ids[..|ids|] == ids;
  }

  /** Different places with foreign ids get different new ids. */
  lemma CountsDiffer(s: Scheme, ids: seq<string>, k: nat, l: nat)
    requires k < |ids| && l < |ids| && s.foreign(ids[k]) && s.foreign(ids[l]) && Fresh(s)
    ensures s.newId(Count(s, ids[..k + 1])) == s.newId(Count(s, ids[..l + 1])) <==> k == l
  {
    if k < l {
      CountGrows(s, ids, k + 1, l + 1);
    } else if l < k {
      CountGrows(s, ids, l + 1, k + 1);
    }
  }

  /** Every new id handed out is at some place. */
  lemma {:induction false} PlaceOfCount(s: Scheme, ids: seq<string>, n: nat) returns (k: nat)
    requires 1 <= n <= Count(s, ids)
    ensures k < |ids| && s.foreign(ids[k]) && Count(s, ids[..k + 1]) == n
    decreases |ids|
  {
    var before := ids[..|ids| - 1];
    if n <= Count(s, before) {
      k := PlaceOfCount(s, before, n);
      assert before[..k + 1] == ids[..k + 1];
    } else {
      k := |ids| - 1;
      assert ids[..k + 1] == ids;
    }
  }

  /** The references after the walk. */
  function RenamedRefs(s: Scheme, ids: seq<string>, refs: seq<string>): (r: seq<string>)
    ensures |r| == |refs| && forall j :: 0 <= j < |refs| ==> r[j] == Rename(Renaming(s, ids), refs[j])
  {
    seq(|refs|, j requires 0 <= j < |refs| => Rename(Renaming(s, ids), refs[j]))
  }

  /** None of the references bears one of the new ids that the walk hands out. */
  predicate Untaken(s: Scheme, ids: seq<string>, refs: seq<string>) {
    forall n: nat :: 1 <= n <= Count(s, ids) ==> s.newId(n) !in refs
  }

  /** Reference `j` points to place `k` after the walk exactly when it did before. */
  predicate Keeps(s: Scheme, ids: seq<string>, refs: seq<string>, k: nat, j: nat)
    requires k < |ids| && j < |refs|
  {
    NewIds(s, ids)[k] == RenamedRefs(s, ids, refs)[j] <==> ids[k] == refs[j]
  }

  lemma RenamedRefAt(s: Scheme, ids: seq<string>, ref: string)
    ensures s.foreign(ref) && ref in ids ==>
              Rename(Renaming(s, ids), ref) == s.newId(Count(s, ids[..LastIndex(ids, ref) + 1]))
    ensures !(s.foreign(ref) && ref in ids) ==> Rename(Renaming(s, ids), ref) == ref
  {
    RenamingIsLast(s, ids, ref);
    if s.foreign(ref) && ref in ids {
      NewIdAt(s, ids, LastIndex(ids, ref));
    }
  }

  lemma UntakenAt(s: Scheme, ids: seq<string>, refs: seq<string>, k: nat, j: nat)
    requires Untaken(s, ids, refs) && k < |ids| && j < |refs| && s.foreign(ids[k])
    ensures refs[j] != s.newId(Count(s, ids[..k + 1]))
  {
    CountInRange(s, ids, k);
    assert refs[j] in refs;
  }

  lemma KeepsUnlessShared(s: Scheme, ids: seq<string>, refs: seq<string>, k: nat, j: nat)
    requires Fresh(s) && (forall id :: id in ids ==> id in refs) && k < |ids| && j < |refs|
    requires ForeignDistinct(s, ids) && Untaken(s, ids, refs)
    ensures Keeps(s, ids, refs, k, j)
  {
    NewIdAt(s, ids, k);
    RenamedRefAt(s, ids, refs[j]);
    if s.foreign(refs[j]) && refs[j] in ids {
      var last := LastIndex(ids, refs[j]);
      if s.foreign(ids[k]) {
        CountsDiffer(s, ids, k, last);
      } else {
        assert ids[k] in ids;
        var i :| 0 <= i < |refs| && refs[i] == ids[k];
        UntakenAt(s, ids, refs, last, i);
      }
    } else if s.foreign(ids[k]) {
      UntakenAt(s, ids, refs, k, j);
    }
  }

  lemma SharedIdIsLost(s: Scheme, ids: seq<string>, refs: seq<string>, i: nat, l: nat, j: nat)
    requires Fresh(s) && i < l < |ids| && s.foreign(ids[i]) && ids[i] == ids[l] && j < |refs| && refs[j] == ids[i]
    ensures !Keeps(s, ids, refs, i, j)
  {
    NewIdAt(s, ids, i);
    RenamedRefAt(s, ids, refs[j]);
    CountsDiffer(s, ids, i, LastIndex(ids, refs[j]));
  }

  lemma TakenIdIsConfused(s: Scheme, ids: seq<string>, refs: seq<string>, k: nat, j: nat)
    requires Fresh(s) && k < |ids| && j < |refs| && s.foreign(ids[k]) && refs[j] == s.newId(Count(s, ids[..k + 1]))
    ensures !Keeps(s, ids, refs, k, j)
  {
    NewIdAt(s, ids, k);
    RenamedRefAt(s, ids, refs[j]);
  }

  /** When every place is referred to, the walk keeps exactly which reference points to which place if and only if no
      foreign id is used twice and no reference already bears one of the new ids. */
  lemma RenamingKeepsReferences(s: Scheme, ids: seq<string>, refs: seq<string>)
    requires Fresh(s) && forall id :: id in ids ==> id in refs
    ensures (forall k, j :: 0 <= k < |ids| && 0 <= j < |refs| ==> Keeps(s, ids, refs, k, j)) <==>
            ForeignDistinct(s, ids) && Untaken(s, ids, refs)
  {
    if ForeignDistinct(s, ids) && Untaken(s, ids, refs) {
      forall k, j | 0 <= k < |ids| && 0 <= j < |refs| ensures Keeps(s, ids, refs, k, j) {
        KeepsUnlessShared(s, ids, refs, k, j);
      }
    } else if !ForeignDistinct(s, ids) {
      var i, l :| 0 <= i < l < |ids| && s.foreign(ids[i]) && ids[i] == ids[l];
      assert ids[i] in ids;
      var j :| 0 <= j < |refs| && refs[j] == ids[i];
      SharedIdIsLost(s, ids, refs, i, l, j);
    } else {
      var n: nat :| 1 <= n <= Count(s, ids) && s.newId(n) in refs;
      var k := PlaceOfCount(s, ids, n);
      var j :| 0 <= j < |refs| && refs[j] == s.newId(n);
      TakenIdIsConfused(s, ids, refs, k, j);
    }
  }

  /** Some reference bears a foreign id that was last renamed to this one. */
  predicate RenamedTo(s: Scheme, ids: seq<string>, refs: seq<string>, id: string) {
    exists l :: 0 <= l < |ids| && s.foreign(ids[l]) && ids[l] in refs && l == LastIndex(ids, ids[l])
                && NewIds(s, ids)[l] == id
  }

  /** The walk leads to an id that is not foreign from that id itself and from what was renamed to it. */
  lemma NativeReferred(s: Scheme, ids: seq<string>, refs: seq<string>, id: string)
    requires !s.foreign(id)
    ensures id in RenamedRefs(s, ids, refs) <==> id in refs || RenamedTo(s, ids, refs, id)
  {
    if id in RenamedRefs(s, ids, refs) {
      var j :| 0 <= j < |refs| && RenamedRefs(s, ids, refs)[j] == id;
      RenamingIsLast(s, ids, refs[j]);
      assert refs[j] in refs;
    }
    if id in refs {
      var j :| 0 <= j < |refs| && refs[j] == id;
      RenamingIsLast(s, ids, id);
      assert RenamedRefs(s, ids, refs)[j] == id;
    }
    if l :| 0 <= l < |ids| && s.foreign(ids[l]) && ids[l] in refs && l == LastIndex(ids, ids[l])
            && NewIds(s, ids)[l] == id {
      var j :| 0 <= j < |refs| && refs[j] == ids[l];
      RenamingIsLast(s, ids, refs[j]);
      assert RenamedRefs(s, ids, refs)[j] == id;
    }
  }

  /** The references after the walk, or some others that it leaves alone, bear this id. */
  predicate IsBorne(s: Scheme, ids: seq<string>, refs: seq<string>, others: seq<string>, id: string) {
    id in RenamedRefs(s, ids, refs) || id in others
  }

  /** Of places that share a foreign id, all but the last have their new id among these already. */
  predicate SharedAreCovered(s: Scheme, ids: seq<string>, refs: seq<string>) {
    forall k, l :: 0 <= k < l < |ids| && s.foreign(ids[k]) && ids[k] == ids[l] ==>
      s.newId(Count(s, ids[..k + 1])) in refs
  }

  lemma RenamedToLast(s: Scheme, ids: seq<string>, refs: seq<string>, k: nat)
    requires Fresh(s) && k < |ids| && s.foreign(ids[k]) && ids[k] in refs
    ensures RenamedTo(s, ids, refs, NewIds(s, ids)[k]) <==> k == LastIndex(ids, ids[k])
  {
    NewIdAt(s, ids, k);
    if l :| 0 <= l < |ids| && s.foreign(ids[l]) && ids[l] in refs && l == LastIndex(ids, ids[l])
            && NewIds(s, ids)[l] == NewIds(s, ids)[k] {
      NewIdAt(s, ids, l);
      CountsDiffer(s, ids, k, l);
    }
  }

  /** Where a place finds a reference after the walk. */
  lemma ReferredAt(s: Scheme, ids: seq<string>, refs: seq<string>, others: seq<string>, k: nat)
    requires Fresh(s) && k < |ids| && ids[k] in refs
    ensures IsBorne(s, ids, refs, others, NewIds(s, ids)[k]) <==>
            !s.foreign(ids[k]) || k == LastIndex(ids, ids[k]) || s.newId(Count(s, ids[..k + 1])) in refs + others
  {
    NewIdAt(s, ids, k);
    NativeReferred(s, ids, refs, NewIds(s, ids)[k]);
    if s.foreign(ids[k]) {
      RenamedToLast(s, ids, refs, k);
    }
  }

  /** If every place is referred to, then after the walk every place still is, or is found among the others, exactly
      when the places that share a foreign id are covered; and where none of either bears a new id, exactly when no
      foreign id is shared. */
  lemma ReferredUnlessShared(s: Scheme, ids: seq<string>, refs: seq<string>, others: seq<string>)
    requires Fresh(s) && forall id :: id in ids ==> id in refs
    ensures (forall id :: id in NewIds(s, ids) ==> IsBorne(s, ids, refs, others, id)) <==>
            SharedAreCovered(s, ids, refs + others)
    ensures Untaken(s, ids, refs + others) ==> (SharedAreCovered(s, ids, refs + others) <==> ForeignDistinct(s, ids))
  {
    forall k | 0 <= k < |ids|
      ensures IsBorne(s, ids, refs, others, NewIds(s, ids)[k]) <==>
              !s.foreign(ids[k]) || k == LastIndex(ids, ids[k]) || s.newId(Count(s, ids[..k + 1])) in refs + others
    {
      assert ids[k] in ids;
      ReferredAt(s, ids, refs, others, k);
    }
    if Untaken(s, ids, refs + others) {
      forall k, l | 0 <= k < l < |ids| && s.foreign(ids[k]) && ids[k] == ids[l]
        ensures s.newId(Count(s, ids[..k + 1])) !in refs + others
      {
        CountInRange(s, ids, k);
      }
    }
    EachReferred(s, ids, refs, others);
  }

  lemma EachReferred(s: Scheme, ids: seq<string>, refs: seq<string>, others: seq<string>)
    requires forall k :: 0 <= k < |ids| ==>
               (IsBorne(s, ids, refs, others, NewIds(s, ids)[k]) <==>
                !s.foreign(ids[k]) || k == LastIndex(ids, ids[k]) || s.newId(Count(s, ids[..k + 1])) in refs + others)
    ensures (forall id :: id in NewIds(s, ids) ==> IsBorne(s, ids, refs, others, id)) <==>
            SharedAreCovered(s, ids, refs + others)
  {
    if SharedAreCovered(s, ids, refs + others) {
      forall id | id in NewIds(s, ids) ensures IsBorne(s, ids, refs, others, id) {
        var k :| 0 <= k < |ids| && NewIds(s, ids)[k] == id;
        if s.foreign(ids[k]) && k != LastIndex(ids, ids[k]) {
          assert k < LastIndex(ids, ids[k]);
        }
      }
    } else {
      var k, l :| 0 <= k < l < |ids| && s.foreign(ids[k]) && ids[k] == ids[l]
                  && s.newId(Count(s, ids[..k + 1])) !in refs + others;
      assert LastIndex(ids, ids[k]) != k;
      assert NewIds(s, ids)[k] in NewIds(s, ids);
    }
  }

  lemma {:induction false} NothingToRename(s: Scheme, ids: seq<string>)
    requires forall id :: id in ids ==> !s.foreign(id)
    ensures NewIds(s, ids) == ids && Renaming(s, ids) == map[]
  {
    if ids != [] {
      NothingToRename(s, ids[..|ids| - 1]);
    }
  }
}
