/**
 * The dashboard form that links one brand to several categories: a
 * toggle-able category selection, a validation sequence, and one create
 * request per selected category.
 */
module BrandCategoryForm {
  import opened Wrappers
  import opened Text
  import opened Slug
  import BrandCategoriesRoute

  predicate NoDuplicates(s: seq<nat>) {
    forall i, j :: 0 <= i < j < |s| ==> s[i] != s[j]
  }

  /** `current.filter(id => id !== categoryId)`. */
  function Without(current: seq<nat>, id: nat): (r: seq<nat>)
    ensures |r| <= |current|
  {
    if current == [] then []
    else (if current[0] == id then [] else [current[0]]) + Without(current[1..], id)
  }

  /** `handleSelectCategory`: drop the id when it is selected, append it otherwise. */
  function Toggle(current: seq<nat>, id: nat): (r: seq<nat>)
    ensures id in r <==> id !in current
  {
    WithoutMembers(current, id);
    if id in current then Without(current, id) else current + [id]
  }

  lemma {:induction false} WithoutMembers(current: seq<nat>, id: nat)
    ensures forall x :: x in Without(current, id) <==> x in current && x != id
  {
    if current != [] {
      WithoutMembers(current[1..], id);
      assert current == [current[0]] + current[1..];
    }
  }

  /** Removing an id that is not selected changes nothing. */
  lemma {:induction false} WithoutAbsent(current: seq<nat>, id: nat)
    requires id !in current
    ensures Without(current, id) == current
  {
    if current != [] {
      WithoutAbsent(current[1..], id);
      assert current == [current[0]] + current[1..];
    }
  }

  lemma {:induction false} WithoutKeepsNoDuplicates(current: seq<nat>, id: nat)
    requires NoDuplicates(current)
    ensures NoDuplicates(Without(current, id))
  {
    if current != [] {
      var rest := current[1..];
      assert NoDuplicates(rest) by {
        forall i, j | 0 <= i < j < |rest| ensures rest[i] != rest[j] {
          assert rest[i] == current[i + 1] && rest[j] == current[j + 1];
        }
      }
      WithoutKeepsNoDuplicates(rest, id);
      WithoutMembers(rest, id);
      assert current[0] !in rest by {
        forall k | 0 <= k < |rest| ensures rest[k] != current[0] {
          assert rest[k] == current[k + 1];
        }
      }
      var tail := Without(rest, id);
      var head := if current[0] == id then [] else [current[0]];
      forall i, j | 0 <= i < j < |head + tail| ensures (head + tail)[i] != (head + tail)[j] {
        if head != [] && i == 0 {
          assert (head + tail)[j] == tail[j - 1];
          assert tail[j - 1] in tail;
        }
      }
    }
  }

  /** Toggling flips the membership of `id` and of nothing else. */
  lemma ToggleMembers(current: seq<nat>, id: nat)
    ensures forall x :: x in Toggle(current, id) <==> (if x == id then id !in current else x in current)
  {
    WithoutMembers(current, id);
  }

  /** The selection never holds a category twice. */
  lemma ToggleKeepsNoDuplicates(current: seq<nat>, id: nat)
    requires NoDuplicates(current)
    ensures NoDuplicates(Toggle(current, id))
  {
    if id in current {
      WithoutKeepsNoDuplicates(current, id);
    }
  }

  /** Selecting a category twice restores the selection's contents; from unselected, the list itself. */
  lemma ToggleTwice(current: seq<nat>, id: nat)
    ensures forall x :: x in Toggle(Toggle(current, id), id) <==> x in current
    ensures id !in current ==> Toggle(Toggle(current, id), id) == current
  {
    ToggleMembers(current, id);
    ToggleMembers(Toggle(current, id), id);
    if id !in current {
      assert id in current + [id];
      WithoutAppend(current, id);
    }
  }

  lemma {:induction false} WithoutAppend(current: seq<nat>, id: nat)
    requires id !in current
    ensures Without(current + [id], id) == current
  {
    if current == [] {
      assert [] + [id] == [id];
    } else {
      assert (current + [id])[1..] == current[1..] + [id];
      WithoutAppend(current[1..], id);
      assert current == [current[0]] + current[1..];
    }
  }

  // ---------------------------------------------------------------- submit

  datatype Problem = NoName | NoDescription | NoBrand | NoCategories

  /** The form's fields; an empty brand choice is `None`. */
  datatype Fields = Fields(name: string, description: string, brandId: Option<nat>, selected: seq<nat>)

  /** The checks of `handleSubmit` in order (`!name.trim()`, ...); the first failure is the one reported. */
  function FirstProblem(f: Fields): (r: Option<Problem>)
    ensures r == None ==> !IsBlank(f.name) && !IsBlank(f.description) && f.brandId.Some? && f.selected != []
  {
    if IsBlank(f.name) then Some(NoName)
    else if IsBlank(f.description) then Some(NoDescription)
    else if f.brandId.None? then Some(NoBrand)
    else if |f.selected| == 0 then Some(NoCategories)
    else None
  }

  /** Each failed check is reported only when every earlier one passed. */
  lemma ProblemOrder(f: Fields)
    ensures FirstProblem(f) == Some(NoName) <==> IsBlank(f.name)
    ensures FirstProblem(f) == Some(NoDescription) <==> !IsBlank(f.name) && IsBlank(f.description)
    ensures FirstProblem(f) == Some(NoBrand) <==> !IsBlank(f.name) && !IsBlank(f.description) && f.brandId.None?
    ensures FirstProblem(f) == Some(NoCategories) <==>
      !IsBlank(f.name) && !IsBlank(f.description) && f.brandId.Some? && f.selected == []
  {
  }

  /**
   * The body posted for one category. The name and description are sent as
   * typed (untrimmed); the slug is derived from the name.
   */
  function Payload(f: Fields, categoryId: nat): BrandCategoriesRoute.LinkRequest
    requires f.brandId.Some?
  {
    BrandCategoriesRoute.LinkRequest(
      None, Some(f.name), Some(f.description), Some(GenerateSlug(f.name)), f.brandId, Some(categoryId))
  }

  /** `selectedCategories.map(...)`: one body per selected category, in selection order. */
  function Payloads(f: Fields, cats: seq<nat>): (r: seq<BrandCategoriesRoute.LinkRequest>)
    requires f.brandId.Some?
    ensures |r| == |cats|
    ensures forall i :: 0 <= i < |r| ==> r[i] == Payload(f, cats[i])
  {
    if cats == [] then [] else [Payload(f, cats[0])] + Payloads(f, cats[1..])
  }

  /** The request of some category in `cats` is refused. */
  predicate SomeRefused(cats: seq<nat>, failing: set<nat>) {
    exists i :: 0 <= i < |cats| && cats[i] in failing
  }

  /** `responses.some(res => !res.ok)`, with `failing` the categories whose request is refused. */
  function AnyFails(cats: seq<nat>, failing: set<nat>): (b: bool)
    ensures b <==> SomeRefused(cats, failing)
  {
    if cats == [] then false
    else if cats[0] in failing then true
    else
      var rest := AnyFails(cats[1..], failing);
      assert rest ==> exists i :: 0 <= i < |cats| && cats[i] in failing by {
        if rest {
          var i :| 0 <= i < |cats[1..]| && cats[1..][i] in failing;
          assert cats[i + 1] in failing;
        }
      }
      assert (exists i :: 0 <= i < |cats| && cats[i] in failing) ==> rest by {
        if exists i :: 0 <= i < |cats| && cats[i] in failing {
          var i :| 0 <= i < |cats| && cats[i] in failing;
          assert i > 0 && cats[1..][i - 1] in failing;
        }
      }
      rest
  }

  /** Every body sent passes the route's required-field check, and all share one slug and brand. */
  lemma PayloadsPassRouteGuard(f: Fields)
    requires FirstProblem(f) == None
    ensures forall i :: 0 <= i < |f.selected| ==>
      var p := Payloads(f, f.selected)[i];
      && BrandCategoriesRoute.CreateFieldsPresent(p)
      && p.slug == Some(GenerateSlug(f.name)) && p.brandId == f.brandId && p.categoryId == Some(f.selected[i])
  {
    var ps := Payloads(f, f.selected);
    forall i | 0 <= i < |f.selected| ensures BrandCategoriesRoute.CreateFieldsPresent(ps[i]) {
      assert ps[i] == Payload(f, f.selected[i]);
    }
  }

  datatype Outcome = Invalid(problem: Problem) | Saved | SaveFailed

  class Page {
    var name: string
    var description: string
    var brandId: Option<nat>
    var selected: seq<nat>
    var loading: bool
    /** The request bodies posted so far, in order. */
    var sent: seq<BrandCategoriesRoute.LinkRequest>

    function Current(): Fields
      reads this
    {
      Fields(name, description, brandId, selected)
    }

    method SelectCategory(id: nat)
      modifies this`selected
      ensures selected == Toggle(old(selected), id)
    {
      if id in selected {
        selected := Without(selected, id);
      } else {
        selected := selected + [id];
      }
    }

    method RemoveCategory(id: nat)
      modifies this`selected
      ensures selected == Without(old(selected), id)
    {
      selected := Without(selected, id);
    }

    /**
     * `handleSubmit`. `failing` is the set of categories whose request the
     * server refuses; one refusal fails the whole submission.
     */
    method HandleSubmit(failing: set<nat>) returns (o: Outcome)
      modifies this`loading, this`sent
      ensures FirstProblem(old(Current())).Some? ==>
        o == Invalid(FirstProblem(old(Current())).value) && sent == old(sent) && loading == old(loading)
      ensures FirstProblem(old(Current())) == None ==>
        && sent == old(sent) + Payloads(old(Current()), old(selected))
        && !loading
        && (o == SaveFailed <==> SomeRefused(selected, failing))
        && (o == Saved <==> !SomeRefused(selected, failing))
    {
      var f := Current();
      var problem := FirstProblem(f);
      if problem.Some? {
        return Invalid(problem.value);
      }
      loading := true;
      var bodies := Payloads(f, f.selected);
      sent := sent + bodies;
      var hasError := AnyFails(f.selected, failing);
      o := if hasError then SaveFailed else Saved;
      loading := false;
    }
  }
}
