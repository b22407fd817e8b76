/**
 * The query console: a query and optional JSON filters are checked, sent as one request,
 * and the answer and citations of the response are displayed with defaults.
 */
module QueryConsole {
  import opened Wrappers
  import opened JsValue
  import opened Api
  import JsText

  /** The error shown when the filters text is not valid JSON. */
  const FiltersError: string := "Filters must be valid JSON"

  /**
   * `!query.trim() || busy` disables the Run Query button: it is enabled exactly when the
   * query holds a non-whitespace character and no query is running.
   */
  function SubmitEnabled(query: string, busy: bool): (r: bool)
    ensures r <==> !busy && exists k :: 0 <= k < |query| && !JsText.IsJsWhitespace(query[k])
  {
    JsText.Trim(query) != [] && !busy
  }

  /** Filters text that is empty or only whitespace is sent as `undefined` and never parsed. */
  predicate FiltersBlank(filters: string)
    ensures FiltersBlank(filters) <==> forall k :: 0 <= k < |filters| ==> JsText.IsJsWhitespace(filters[k])
  {
    JsText.Trim(filters) == []
  }

  class QueryConsolePage {
    /** The query text as typed. */
    var query: string
    /** The filters text as typed. */
    var filters: string
    /** A query request is in flight. */
    var busy: bool
    /** The error shown, or "" for none. */
    var error: string
    /** The last response, `JNull` for none. */
    var result: Json
    /** The bodies posted to the query endpoint, in order. */
    var requests: seq<QueryPayload>

    /** While a query runs, no error and no result are shown. */
    ghost predicate Valid()
      reads this
    {
      busy ==> error == "" && result == JNull && |requests| > 0
    }

    constructor ()
      ensures Valid()
      ensures query == "" && filters == "" && !busy && error == "" && result == JNull && requests == []
    {
      query, filters, busy, error, result, requests := "", "", false, "", JNull, [];
    }

    /** Typing in the query field. */
    method EditQuery(text: string)
      requires Valid()
      modifies this`query
      ensures Valid() && query == text
    {
      query := text;
    }

    /** Typing in the filters field. */
    method EditFilters(text: string)
      requires Valid()
      modifies this`filters
      ensures Valid() && filters == text
    {
      filters := text;
    }

    /**
     * `onSubmit` up to the backend call, with `parse` standing for `JSON.parse`. A disabled
     * button submits nothing. Otherwise the page turns busy and clears the error and the
     * result; non-blank filters that do not parse stop it there with a validation error and
     * no request; in every other case exactly one request is posted, with the query as typed
     * and the parsed filters (none when the filters are blank).
     */
    method Submit(parse: string -> Option<Json>) returns (sent: bool)
      requires Valid()
      modifies this
      ensures Valid()
      ensures !SubmitEnabled(old(query), old(busy)) ==> !sent && unchanged(this)
      ensures SubmitEnabled(old(query), old(busy)) ==>
        && query == old(query) && filters == old(filters) && result == JNull
        && sent == (FiltersBlank(filters) || parse(filters).Some?)
        && busy == sent
        && error == (if sent then "" else FiltersError)
        && requests == old(requests)
             + if !sent then []
               else [QueryPayload(query, if FiltersBlank(filters) then None else parse(filters))]
    {
      if !SubmitEnabled(query, busy) {
        return false;
      }
      busy := true;
      error := "";
      result := JNull;
      var filtersObj: Option<Json> := None;
      if !FiltersBlank(filters) {
        filtersObj := parse(filters);
        if filtersObj.None? {
          error := FiltersError;
          busy := false;
          return false;
        }
      }
      requests := requests + [QueryPayload(query, filtersObj)];
      return true;
    }

    /**
     * The rest of `onSubmit`, once the query call settles: a response becomes the result,
     * an error is shown with its message or "Query failed"; the page is not busy afterwards.
     */
    method CompleteSubmit(outcome: Outcome)
      requires Valid() && busy
      modifies this`busy, this`result, this`error
      ensures Valid() && !busy
      ensures outcome.Returned? ==> result == outcome.value && error == ""
      ensures outcome.Threw? ==> result == JNull && error == MessageOr(outcome.message, "Query failed")
    {
      match outcome {
        case Returned(resp) =>
          result := resp;
        case Threw(m) =>
          error := MessageOr(m, "Query failed");
      }
      busy := false;
    }

    /** The Reset button: disabled while busy, otherwise it clears the query, the filters, the result and the error. */
    method Reset()
      requires Valid()
      modifies this
      ensures Valid()
      ensures old(busy) ==> unchanged(this)
      ensures !old(busy) ==>
        query == "" && filters == "" && result == JNull && error == "" && !busy && requests == old(requests)
    {
      if busy {
        return;
      }
      query, filters, result, error := "", "", JNull, "";
    }
  }

  /** One displayed citation: its source label, and the link and snippet when present. */
  datatype CitationView = CitationView(source: Json, uri: Option<Json>, snippet: Option<Json>)

  /** The citation area: the list of citations, or a note that there are none. */
  datatype CitationsView = Listed(items: seq<CitationView>) | Note(text: string)

  /** The answer panel, shown only for a truthy result. */
  datatype ResultView = ResultView(answer: Json, citations: CitationsView)

  /** `c.source || 'Unknown Source'`, with `c.uri` and `c.snippet` shown only when truthy. */
  function ShowCitation(c: Json): (v: CitationView)
    ensures TruthyOpt(Field(c, "source")) ==> Some(v.source) == Field(c, "source")
    ensures !TruthyOpt(Field(c, "source")) ==> v.source == JStr("Unknown Source")
    ensures v.uri.Some? <==> TruthyOpt(Field(c, "uri"))
    ensures v.uri.Some? ==> v.uri == Field(c, "uri")
    ensures v.snippet.Some? <==> TruthyOpt(Field(c, "snippet"))
    ensures v.snippet.Some? ==> v.snippet == Field(c, "snippet")
  {
    CitationView(
      Or(Field(c, "source"), JStr("Unknown Source")),
      if TruthyOpt(Field(c, "uri")) then Field(c, "uri") else None,
      if TruthyOpt(Field(c, "snippet")) then Field(c, "snippet") else None)
  }

  /**
   * The citations area: when `result.citations` is a non-empty array, one entry per
   * citation in response order; otherwise the note "No citations returned".
   */
  function ShowCitations(result: Json): (r: CitationsView)
    ensures r.Listed? <==> (match Field(result, "citations")
                            case Some(JArr(cs)) => |cs| > 0
                            case _ => false)
    ensures r.Listed? ==> var cs := Field(result, "citations").value.items;
      |r.items| == |cs| && forall k :: 0 <= k < |cs| ==> r.items[k] == ShowCitation(cs[k])
    ensures r.Note? ==> r.text == "No citations returned"
  {
    match Field(result, "citations")
    case Some(JArr(cs)) =>
      if |cs| > 0 then Listed(seq(|cs|, k requires 0 <= k < |cs| => ShowCitation(cs[k])))
      else Note("No citations returned")
    case _ => Note("No citations returned")
  }

  /**
   * The result panel: nothing for a falsy result; otherwise `result.answer`, or
   * "No answer returned" when that is falsy, above the citations area.
   */
  function ShowResult(result: Json): (r: Option<ResultView>)
    ensures r.Some? <==> Truthy(result)
    ensures r.Some? && TruthyOpt(Field(result, "answer")) ==> Some(r.value.answer) == Field(result, "answer")
    ensures r.Some? && !TruthyOpt(Field(result, "answer")) ==> r.value.answer == JStr("No answer returned")
    ensures r.Some? ==> r.value.citations == ShowCitations(result)
  {
    if Truthy(result) then
      Some(ResultView(Or(Field(result, "answer"), JStr("No answer returned")), ShowCitations(result)))
    else None
  }

  /** A response with one citation displays exactly that citation, its fields verbatim. */
  lemma OneCitationShown()
    ensures
      var c := JObj(map["source" := JStr("doc1"), "uri" := JStr("http://x"), "snippet" := JStr("...")]);
      ShowResult(JObj(map["answer" := JStr("Paris"), "citations" := JArr([c])]))
      == Some(ResultView(JStr("Paris"),
                         Listed([CitationView(JStr("doc1"), Some(JStr("http://x")), Some(JStr("...")))])))
  {
    var c := JObj(map["source" := JStr("doc1"), "uri" := JStr("http://x"), "snippet" := JStr("...")]);
    var result := JObj(map["answer" := JStr("Paris"), "citations" := JArr([c])]);
    var shown := CitationView(JStr("doc1"), Some(JStr("http://x")), Some(JStr("...")));
    assert Field(c, "source") == Some(JStr("doc1"));
    assert Field(c, "uri") == Some(JStr("http://x"));
    assert Field(c, "snippet") == Some(JStr("..."));
    assert ShowCitation(c) == shown;
    assert Field(result, "citations") == Some(JArr([c]));
    assert ShowCitations(result).items == [shown];
    assert Field(result, "answer") == Some(JStr("Paris"));
  }
}
