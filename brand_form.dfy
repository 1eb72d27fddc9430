/**
 * The dashboard "new brand" form: three checks, each stopping the submission
 * with one message, then one create request carrying a slug derived from
 * the name.
 */
module BrandForm {
  import opened Wrappers
  import opened Text
  import opened Slug
  import BrandsRoute
  import Fields

  datatype Problem = NoName | NoDescription | NoImage

  datatype Entry = Entry(name: string, description: string, image: string)

  /** The checks of `handleSubmit` in order; the first failure is the one reported. */
  function FirstProblem(e: Entry): (r: Option<Problem>)
    ensures r == None ==> !IsBlank(e.name) && !IsBlank(e.description) && e.image != []
  {
    if IsBlank(e.name) then Some(NoName)
    else if IsBlank(e.description) then Some(NoDescription)
    else if e.image == [] then Some(NoImage)
    else None
  }

  /** Each failed check is reported only when every earlier one passed. */
  lemma ProblemOrder(e: Entry)
    ensures FirstProblem(e) == Some(NoName) <==> IsBlank(e.name)
    ensures FirstProblem(e) == Some(NoDescription) <==> !IsBlank(e.name) && IsBlank(e.description)
    ensures FirstProblem(e) == Some(NoImage) <==> !IsBlank(e.name) && !IsBlank(e.description) && e.image == []
    ensures FirstProblem(e) == None <==> !IsBlank(e.name) && !IsBlank(e.description) && e.image != []
  {
  }

  /** `{ name, description, image, slug }`: the fields as typed and the generated slug. */
  function Payload(e: Entry): (req: BrandsRoute.BrandRequest)
    ensures req.name == Some(e.name) && req.description == Some(e.description) && req.image == Some(e.image)
    ensures req.slug == Some(GenerateSlug(e.name))
    ensures GenerateSlug(req.slug.value) == req.slug.value
  {
    GenerateSlugIdempotent(e.name);
    BrandsRoute.BrandRequest(Some(e.name), Some(e.description), Some(e.image), Some(GenerateSlug(e.name)))
  }

  /**
   * The body passes the route's required-field check exactly when the slug
   * is not empty; the slug sent is already in normal form.
   */
  lemma PayloadMeetsRoute(e: Entry)
    requires FirstProblem(e) == None
    ensures Fields.Given(Payload(e).name)
    ensures Fields.Given(Payload(e).slug) <==> GenerateSlug(e.name) != []
    ensures GenerateSlug(Payload(e).slug.value) == Payload(e).slug.value
  {
    NotBlankIsTruthy(e.name);
    GenerateSlugIdempotent(e.name);
  }

  /** A name made only of punctuation passes the form, but its slug is empty and the route answers 400. */
  lemma PunctuationNameRefusedByRoute(e: Entry)
    requires FirstProblem(e) == None
    requires forall i :: 0 <= i < |e.name| ==> !IsKept(e.name[i])
    ensures !Fields.Given(Payload(e).slug)
  {
    NothingKeptEmptySlug(e.name);
  }

  /** Such names exist: "!!!" is not blank and keeps no character. */
  lemma PunctuationNameExists()
    ensures !IsBlank("!!!") && forall i :: 0 <= i < |"!!!"| ==> !IsKept("!!!"[i])
  {
    var s := "!!!";
    assert !IsSpace(s[0]);
    forall i | 0 <= i < |s| ensures !IsKept(s[i]) {
      assert s[i] == '!';
    }
  }

  datatype Outcome = Invalid(problem: Problem) | Saved | SaveFailed

  class Page {
    var entry: Entry
    var loading: bool
    /** The request bodies posted so far, in order. */
    var sent: seq<BrandsRoute.BrandRequest>

    /** `handleSubmit`; `accepted` is whether the server answers with an ok status. */
    method HandleSubmit(accepted: bool) returns (o: Outcome)
      modifies this`loading, this`sent
      ensures FirstProblem(entry).Some? ==>
        o == Invalid(FirstProblem(entry).value) && sent == old(sent) && loading == old(loading)
      ensures FirstProblem(entry) == None ==>
        sent == old(sent) + [Payload(entry)] && !loading && o == (if accepted then Saved else SaveFailed)
    {
      var problem := FirstProblem(entry);
      if problem.Some? {
        return Invalid(problem.value);
      }
      loading := true;
      sent := sent + [Payload(entry)];
      o := if accepted then Saved else SaveFailed;
      loading := false;
    }
  }
}
