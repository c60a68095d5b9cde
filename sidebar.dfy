/**
 * The workspace sidebar: the split of saved projects into active and archived lists, the
 * drag-and-drop reorder of the active list, and the visibility rules of the coefficient panel.
 */
module Sidebar {
  import opened Types
  import opened Catalog
  import Seqs
  import Calculator
  import App

  predicate IsActive(p: SavedProject) {
    !p.isArchived
  }

  predicate IsArchived(p: SavedProject) {
    p.isArchived
  }

  /** `savedProjects.filter(p => !p.isArchived)`. */
  function ActiveProjects(saved: seq<SavedProject>): (r: seq<SavedProject>)
    ensures forall p :: p in r <==> p in saved && !p.isArchived
  {
    var r := Seqs.Filter(saved, IsActive);
    forall p ensures p in r <==> p in saved && !p.isArchived {
      Seqs.FilterMembership(saved, IsActive, p);
    }
    r
  }

  /** `savedProjects.filter(p => p.isArchived)`. */
  function ArchivedProjects(saved: seq<SavedProject>): (r: seq<SavedProject>)
    ensures forall p :: p in r <==> p in saved && p.isArchived
  {
    var r := Seqs.Filter(saved, IsArchived);
    forall p ensures p in r <==> p in saved && p.isArchived {
      Seqs.FilterMembership(saved, IsArchived, p);
    }
    r
  }

  /** Every saved project lands in exactly one of the two lists, as often as it occurs. */
  lemma PartitionProjects(saved: seq<SavedProject>)
    ensures multiset(ActiveProjects(saved)) + multiset(ArchivedProjects(saved)) == multiset(saved)
    ensures |ActiveProjects(saved)| + |ArchivedProjects(saved)| == |saved|
  {
    Seqs.FilterSplit(saved, IsArchived, IsActive);
  }

  /** Both lists keep the saved order: splitting a joined list splits each part. */
  lemma PartitionKeepsOrder(a: seq<SavedProject>, b: seq<SavedProject>)
    ensures ActiveProjects(a + b) == ActiveProjects(a) + ActiveProjects(b)
    ensures ArchivedProjects(a + b) == ArchivedProjects(a) + ArchivedProjects(b)
  {
    Seqs.FilterConcat(a, b, IsActive);
    Seqs.FilterConcat(a, b, IsArchived);
  }

  /**
   * `s` with the element at `from` taken out and put back at `to`: the effect of
   * `splice(from, 1)` followed by `splice(to, 0, item)`.
   */
  function Move<T>(s: seq<T>, from: nat, to: nat): (r: seq<T>)
    requires from < |s| && to < |s|
    ensures |r| == |s|
    ensures r[to] == s[from]
    ensures Seqs.RemoveAt(r, to) == Seqs.RemoveAt(s, from)
    ensures multiset(r) == multiset(s)
  {
    var rest := Seqs.RemoveAt(s, from);
    var r := rest[..to] + [s[from]] + rest[to..];
    assert Seqs.RemoveAt(r, to) == rest;
    calc {
      multiset(r);
      multiset(rest[..to]) + multiset([s[from]]) + multiset(rest[to..]);
      { assert rest == rest[..to] + rest[to..]; }
      multiset(rest) + multiset([s[from]]);
      { assert s == s[..from] + [s[from]] + s[from + 1..]; }
      multiset(s);
    }
    r
  }

  /** Where each element ends up: the items between the two positions shift by one towards `from`. */
  lemma MovePositions<T>(s: seq<T>, from: nat, to: nat, i: nat)
    requires from < |s| && to < |s| && i < |s|
    ensures Move(s, from, to)[i] ==
      if i == to then s[from]
      else if from < to && from <= i < to then s[i + 1]
      else if to < from && to < i <= from then s[i - 1]
      else s[i]
  {
    var r := Move(s, from, to);
    var rest := Seqs.RemoveAt(s, from);
    if i < to {
      assert r[i] == Seqs.RemoveAt(r, to)[i] == rest[i];
    } else if i > to {
      assert r[i] == Seqs.RemoveAt(r, to)[i - 1] == rest[i - 1];
    }
  }

  /** The list handed to the workspace after a drop: the reordered active list, then the archived one. */
  function ReorderedList(saved: seq<SavedProject>, from: nat, to: nat): seq<SavedProject>
    requires from < |ActiveProjects(saved)| && to < |ActiveProjects(saved)|
  {
    Move(ActiveProjects(saved), from, to) + ArchivedProjects(saved)
  }

  /**
   * A drop permutes the saved projects, moves the dragged project to the drop index of the
   * active list, keeps every other active project in order and every archived project after
   * the active ones, in order.
   */
  lemma ReorderIsPermutation(saved: seq<SavedProject>, from: nat, to: nat)
    requires from < |ActiveProjects(saved)| && to < |ActiveProjects(saved)|
    ensures var r := ReorderedList(saved, from, to);
      && |r| == |saved|
      && multiset(r) == multiset(saved)
      && r[to] == ActiveProjects(saved)[from]
      && Seqs.RemoveAt(r[..|ActiveProjects(saved)|], to) == Seqs.RemoveAt(ActiveProjects(saved), from)
      && r[|ActiveProjects(saved)|..] == ArchivedProjects(saved)
  {
    var active := ActiveProjects(saved);
    var r := ReorderedList(saved, from, to);
    PartitionProjects(saved);
    assert r[..|active|] == Move(active, from, to);
  }

  /** A list of active projects only is its own active part and has no archived part. */
  lemma OnlyActive(s: seq<SavedProject>)
    requires forall i :: 0 <= i < |s| ==> !s[i].isArchived
    ensures ActiveProjects(s) == s && ArchivedProjects(s) == []
  {
    Seqs.FilterKeepsAll(s, IsActive);
    Seqs.FilterSplit(s, IsArchived, IsActive);
  }

  /** A list of archived projects only is its own archived part and has no active part. */
  lemma OnlyArchived(s: seq<SavedProject>)
    requires forall i :: 0 <= i < |s| ==> s[i].isArchived
    ensures ArchivedProjects(s) == s && ActiveProjects(s) == []
  {
    Seqs.FilterKeepsAll(s, IsArchived);
    Seqs.FilterSplit(s, IsArchived, IsActive);
  }

  /** Splitting the reordered list again gives the moved active list and the untouched archived list. */
  lemma ReorderSplitsBack(saved: seq<SavedProject>, from: nat, to: nat)
    requires from < |ActiveProjects(saved)| && to < |ActiveProjects(saved)|
    ensures ActiveProjects(ReorderedList(saved, from, to)) == Move(ActiveProjects(saved), from, to)
    ensures ArchivedProjects(ReorderedList(saved, from, to)) == ArchivedProjects(saved)
  {
    var active := ActiveProjects(saved);
    var archived := ArchivedProjects(saved);
    var moved := Move(active, from, to);
    forall i | 0 <= i < |moved| ensures !moved[i].isArchived {
      assert moved[i] in multiset(active);
    }
    OnlyActive(moved);
    OnlyArchived(archived);
    PartitionKeepsOrder(moved, archived);
  }

  /** The sidebar's drag state: the index of the active project being dragged, if any. */
  class DragState {
    var draggedItemIndex: Option<nat>

    constructor()
      ensures draggedItemIndex == None
    {
      draggedItemIndex := None;
    }

    /** `handleDragStart`. */
    method DragStart(index: nat)
      modifies this
      ensures draggedItemIndex == Some(index)
    {
      draggedItemIndex := Some(index);
    }

    /**
     * `handleDrop`: without a drag in progress, or when dropped on itself, nothing happens;
     * otherwise the reordered list is handed to the workspace and the drag ends. Both
     * indices come from the rendered active list.
     */
    method Drop(saved: seq<SavedProject>, index: nat) returns (newOrder: Option<seq<SavedProject>>)
      requires draggedItemIndex.Some? ==> draggedItemIndex.value < |ActiveProjects(saved)|
      requires index < |ActiveProjects(saved)|
      modifies this
      ensures old(draggedItemIndex).None? || old(draggedItemIndex) == Some(index) ==>
        newOrder.None? && draggedItemIndex == old(draggedItemIndex)
      ensures old(draggedItemIndex).Some? && old(draggedItemIndex) != Some(index) ==>
        newOrder == Some(ReorderedList(saved, old(draggedItemIndex).value, index)) && draggedItemIndex.None?
    {
      if draggedItemIndex.None? || draggedItemIndex.value == index {
        return None;
      }
      var from := draggedItemIndex.value;
      var order := ActiveProjects(saved);
      var draggedItem := order[from];
      order := order[..from] + order[from + 1..];
      order := order[..index] + [draggedItem] + order[index..];
      newOrder := Some(order + ArchivedProjects(saved));
      draggedItemIndex := None;
    }
  }

  /** Archiving takes the project off the active list and leaves every other active project on it. */
  lemma ArchiveHidesFromActive(s: App.AppState, id: string, initialForm: FormState)
    ensures var r := App.ArchiveProject(s, id, initialForm);
      && (forall p :: p in ActiveProjects(r.projects) ==> p.id != id)
      && (forall p :: p in ActiveProjects(s.projects) && p.id != id ==> p in ActiveProjects(r.projects))
  {
    var r := App.ArchiveProject(s, id, initialForm);
    forall p | p in ActiveProjects(r.projects) ensures p.id != id {
      var i :| 0 <= i < |r.projects| && r.projects[i] == p;
    }
    forall p | p in ActiveProjects(s.projects) && p.id != id ensures p in ActiveProjects(r.projects) {
      var i :| 0 <= i < |s.projects| && s.projects[i] == p;
      assert r.projects[i] == p;
    }
  }

  /** Unarchiving puts every entry with the id back on the active list. */
  lemma UnarchiveRestoresToActive(s: App.AppState, id: string)
    ensures var r := App.UnarchiveProject(s, id);
      forall i :: 0 <= i < |s.projects| && s.projects[i].id == id ==>
        s.projects[i].(isArchived := false) in ActiveProjects(r.projects)
  {
    var r := App.UnarchiveProject(s, id);
    forall i | 0 <= i < |s.projects| && s.projects[i].id == id
      ensures s.projects[i].(isArchived := false) in ActiveProjects(r.projects)
    {
      assert r.projects[i] in r.projects;
    }
  }

  // ---------------------------------------------------------------- coefficient panel

  /** The coefficient panel: a type is selected and its category is neither I nor VII. */
  predicate ShowCoefficients(catalog: Catalog, form: FormState)
    ensures ShowCoefficients(catalog, form) ==> form.projectType in catalog.types
    ensures form.projectType in catalog.types ==>
      (ShowCoefficients(catalog, form) <==>
         Calculator.AccelerationApplies(form.(isAccelerated := true), CategoryOf(form.projectType)))
  {
    form.projectType in catalog.types && Calculator.CoefficientsApply(CategoryOf(form.projectType))
  }

  /** The crane checkbox, inside the panel, for categories V and VI only. */
  predicate ShowCraneOption(catalog: Catalog, form: FormState)
    ensures ShowCraneOption(catalog, form) ==> ShowCoefficients(catalog, form)
    ensures form.projectType in catalog.types ==>
      (ShowCraneOption(catalog, form) <==> Calculator.CraneApplies(form.(hasCrane := true), CategoryOf(form.projectType)))
  {
    ShowCoefficients(catalog, form) && Calculator.IsCraneEligible(CategoryOf(form.projectType))
  }

  /** The percentage field of the panel: only while complexity is ticked. */
  predicate ShowComplexityPercentage(catalog: Catalog, form: FormState)
    ensures ShowComplexityPercentage(catalog, form) ==> ShowCoefficients(catalog, form) && form.hasComplexity
    ensures form.projectType in catalog.types && form.complexityPercentage > 0.0 ==>
      (ShowComplexityPercentage(catalog, form) <==> Calculator.ComplexityApplies(form, CategoryOf(form.projectType)))
  {
    ShowCoefficients(catalog, form) && form.hasComplexity
  }

  /** A JavaScript number input read with `valueAsNumber || fallback`: NaN (None) and 0 give the fallback. */
  function NumberOr(input: Option<real>, fallback: real): (r: real)
    ensures input.Some? && input.value != 0.0 ==> r == input.value
    ensures input.None? || input.value == 0.0 ==> r == fallback
    ensures fallback != 0.0 ==> r != 0.0
    ensures r == fallback || input == Some(r)
  {
    if input.Some? && input.value != 0.0 then input.value else fallback
  }

  /**
   * `valueAsNumber || 0`, how the percentage, area and additional-length fields are read: an
   * empty field gives 0, anything else the number entered.
   */
  function NumberOrZero(input: Option<real>): (r: real)
    ensures input.None? ==> r == 0.0
    ensures input.Some? ==> r == input.value
  {
    NumberOr(input, 0.0)
  }

  /**
   * The panel is hidden exactly for the categories the calculator never surcharges, and the
   * crane option exactly for those it never charges a crane in: the controls shown are the
   * ones that can change the total.
   */
  lemma PanelMatchesCalculator(catalog: Catalog, form: FormState)
    requires form.projectType in catalog.types
    ensures var category := CategoryOf(form.projectType);
      && (!ShowCoefficients(catalog, form) ==>
            !Calculator.ComplexityApplies(form, category) && !Calculator.AccelerationApplies(form, category)
            && !Calculator.SupervisionApplies(form, category))
      && (ShowCoefficients(catalog, form) ==>
            (Calculator.AccelerationApplies(form, category) <==> form.isAccelerated)
            && (Calculator.SupervisionApplies(form, category) <==> form.includeSupervision)
            && (Calculator.ComplexityApplies(form, category) <==> form.hasComplexity && form.complexityPercentage > 0.0))
      && (Calculator.CraneApplies(form, category) <==> ShowCraneOption(catalog, form) && form.hasCrane)
  {
  }
}
