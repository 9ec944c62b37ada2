/** The front end's global application store: the current user role and the
    list of selected paper ids, with the actions that update them.  Only the
    role survives a reload. */
module AppStore {
  import opened Sorting

  /** `UserRole`. */
  datatype Role = Scientist | Manager | MissionPlanner

  /** `ids.filter(x => x !== id)`: every occurrence of `id` removed. */
  function Without(ids: seq<string>, id: string): (r: seq<string>)
  {
    if ids == [] then [] else (if ids[0] == id then [] else [ids[0]]) + Without(ids[1..], id)
  }

  /** `Without` removes every occurrence of `id`, keeps every other id as
      often as it was there, and keeps the remaining ids in their order. */
  lemma {:induction false} WithoutSpec(ids: seq<string>, id: string, x: string)
    ensures id !in Without(ids, id)
    ensures x != id ==> Occurrences(Without(ids, id), x) == Occurrences(ids, x)
    ensures |Without(ids, id)| == |ids| - Occurrences(ids, id)
  {
    if ids != [] {
      WithoutSpec(ids[1..], id, x);
      var rest := Without(ids[1..], id);
      if ids[0] != id {
        assert Without(ids, id) == [ids[0]] + rest;
        assert ([ids[0]] + rest)[1..] == rest;
        assert Occurrences([ids[0]] + rest, x) == (if ids[0] == x then 1 else 0) + Occurrences(rest, x);
      } else {
        assert Without(ids, id) == rest;
      }
    }
  }

  /** `Without` keeps the relative order: it is what is left of `a + b`
      after taking `id` out of each part. */
  lemma {:induction false} WithoutAppend(a: seq<string>, b: seq<string>, id: string)
    ensures Without(a + b, id) == Without(a, id) + Without(b, id)
  {
    if a == [] {
      assert a + b == b;
    } else {
      assert (a + b)[0] == a[0];
      assert (a + b)[1..] == a[1..] + b;
      WithoutAppend(a[1..], b, id);
    }
  }

  /** Removing an id that is not there changes nothing. */
  lemma {:induction false} WithoutAbsent(ids: seq<string>, id: string)
    requires id !in ids
    ensures Without(ids, id) == ids
  {
    if ids != [] {
      WithoutAbsent(ids[1..], id);
    }
  }

  /** No id is listed twice. */
  predicate NoDuplicates(ids: seq<string>) {
    forall i, j :: 0 <= i < j < |ids| ==> ids[i] != ids[j]
  }

  /** A selection toggle (`handlePaperSelect`, `togglePaperSelection`):
      drop the id when it is selected, append it otherwise. */
  function Toggle(ids: seq<string>, id: string): seq<string> {
    if id in ids then Without(ids, id) else ids + [id]
  }

  /** After a toggle the id is selected exactly when it was not before, and
      every other id is selected as often as before. */
  lemma ToggleSpec(ids: seq<string>, id: string, x: string)
    ensures id in Toggle(ids, id) <==> id !in ids
    ensures x != id ==> Occurrences(Toggle(ids, id), x) == Occurrences(ids, x)
  {
    WithoutSpec(ids, id, x);
    if id !in ids {
      OccurrencesSnoc(ids, id, x);
    }
  }

  lemma {:induction false} WithoutSubset(ids: seq<string>, id: string, y: string)
    requires y in Without(ids, id)
    ensures y in ids && y != id
  {
    if ids != [] && !(ids[0] != id && y == ids[0]) {
      WithoutSubset(ids[1..], id, y);
    }
  }

  lemma {:induction false} WithoutNoDuplicates(ids: seq<string>, id: string)
    requires NoDuplicates(ids)
    ensures NoDuplicates(Without(ids, id))
  {
    if ids != [] {
      assert NoDuplicates(ids[1..]);
      WithoutNoDuplicates(ids[1..], id);
      var rest := Without(ids[1..], id);
      forall k | 0 <= k < |rest| ensures rest[k] != ids[0] {
        WithoutSubset(ids[1..], id, rest[k]);
      }
    }
  }

  /** Toggling keeps a selection free of duplicates, and toggling the same
      id twice gives back the same set of selected ids; when the id was not
      selected, the very same list. */
  lemma ToggleTwice(ids: seq<string>, id: string)
    requires NoDuplicates(ids)
    ensures NoDuplicates(Toggle(ids, id))
    ensures forall x :: x in Toggle(Toggle(ids, id), id) <==> x in ids
    ensures id !in ids ==> Toggle(Toggle(ids, id), id) == ids
  {
    var once := Toggle(ids, id);
    if id in ids {
      assert NoDuplicates(once) by { WithoutNoDuplicates(ids, id); }
      assert id !in once by { WithoutSpec(ids, id, id); }
      assert Toggle(once, id) == once + [id];
      forall x ensures x in once + [id] <==> x in ids {
        if x in once { WithoutSubset(ids, id, x); }
        if x in ids && x != id {
          assert Occurrences(once, x) == Occurrences(ids, x) by { WithoutSpec(ids, id, x); }
        }
      }
    } else {
      assert Without(once, id) == Without(ids, id) + Without([id], id) by { WithoutAppend(ids, [id], id); }
      assert Without(ids, id) == ids by { WithoutAbsent(ids, id); }
      assert Without([id], id) == [];
      assert ids + [] == ids;
    }
  }

  /** The part of the store written to local storage (`partialize`). */
  datatype Persisted = Persisted(role: Role)

  /** `useAppStore`: the role and the selected paper ids. */
  class Store {
    var role: Role
    var selectedPaperIds: seq<string>

    /** A fresh store: a scientist with nothing selected. */
    constructor ()
      ensures role == Scientist && selectedPaperIds == []
    {
      role := Scientist;
      selectedPaperIds := [];
    }

    /** A store rebuilt from local storage: the saved role, nothing selected. */
    constructor Restore(saved: Persisted)
      ensures role == saved.role && selectedPaperIds == []
    {
      role := saved.role;
      selectedPaperIds := [];
    }

    /** What is written to local storage: the role only. */
    function Persist(): (p: Persisted)
      reads this
      ensures p.role == role
    {
      Persisted(role)
    }

    method SetRole(r: Role)
      modifies this
      ensures role == r && selectedPaperIds == old(selectedPaperIds)
    {
      role := r;
    }

    method SetSelectedPaperIds(ids: seq<string>)
      modifies this
      ensures selectedPaperIds == ids && role == old(role)
    {
      selectedPaperIds := ids;
    }

    /** Appends the id at the end, even when it is already selected. */
    method AddSelectedPaperId(id: string)
      modifies this
      ensures selectedPaperIds == old(selectedPaperIds) + [id] && role == old(role)
      ensures |selectedPaperIds| == |old(selectedPaperIds)| + 1
    {
      selectedPaperIds := selectedPaperIds + [id];
    }

    /** Drops every occurrence of the id, keeping the others in order. */
    method RemoveSelectedPaperId(id: string)
      modifies this
      ensures selectedPaperIds == Without(old(selectedPaperIds), id) && role == old(role)
      ensures id !in selectedPaperIds
      ensures id !in old(selectedPaperIds) ==> selectedPaperIds == old(selectedPaperIds)
    {
      WithoutSpec(selectedPaperIds, id, id);
      if id !in selectedPaperIds {
        WithoutAbsent(selectedPaperIds, id);
      }
      selectedPaperIds := Without(selectedPaperIds, id);
    }

    method ClearSelectedPaperIds()
      modifies this
      ensures selectedPaperIds == [] && role == old(role)
    {
      selectedPaperIds := [];
    }

    /** `handlePaperSelect` of the paper, search and scientist pages:
        remove the id when it is selected, add it otherwise. */
    method SelectPaper(id: string)
      modifies this
      ensures selectedPaperIds == Toggle(old(selectedPaperIds), id) && role == old(role)
    {
      if id in selectedPaperIds {
        RemoveSelectedPaperId(id);
      } else {
        AddSelectedPaperId(id);
      }
    }
  }

  /** Saving a store and loading it back restores the role and nothing else. */
  method ReloadStore(s: Store) returns (t: Store)
    ensures fresh(t) && t.role == s.role && t.selectedPaperIds == []
  {
    var saved := s.Persist();
    t := new Store.Restore(saved);
  }
}
