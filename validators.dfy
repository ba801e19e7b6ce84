/**
 * The response validators: `runErrorResponseTest`, `runSuccessResponseTest` and
 * `runOptionsTest`. Each `pm.test(label, callback)` becomes one `TestResult` appended to a
 * `TestReport`; inside a callback the first failing `pm.expect` ends that test, so a test's
 * verdict is `Pass` or the reason of its first failing expectation.
 */
module Validators {
  import opened JsonValue

  /** Why a test failed: its first failing expectation. */
  datatype Reason =
    | NoSuccessProperty                   // the response has no `success` property
    | MissingErrorKeys                    // `success` is falsy and status/error/errors are not all there
    | NoQueryProperty                     // the request data has no `query` property
    | StatusNot200(status: int)           // the HTTP status is not 200
    | ResponseMissingKey(key: string)     // "Response missing <key>"
    | MissingOptionsProperty(name: string) // "<name> is missing expected options property"
    | OptionsNotArray                     // "Options is not an array"
    | ReadOfNull                          // the TypeError of reading a property of `null`
    | ItemMissingKeys(index: nat)         // "An item [<index>] in the array is missing expected keys"

  datatype Verdict = Pass | Fail(reason: Reason)

  /** One recorded `pm.test`. */
  datatype TestResult = TestResult(title: string, verdict: Verdict)

  const ErrorTestLabel: string := "If client request errors, has correct structure for it"
  const QueryTestLabel: string := "Request data includes query"

  function SuccessLabel(name: string): string { name + ": Success" }
  function StructureLabel(name: string): string { name + ": Basic Structure" }

  // ---------------------------------------------------------------------------
  // The single-expectation tests

  /** The callback of `runErrorResponseTest`: the response must have `success`, and when
      that is falsy it must also have `status`, `error` and `errors`. */
  function ErrorShapeVerdict(response: Json): (v: Verdict)
    ensures v == Pass <==>
      && response.JObject?
      && "success" in response.fields
      && (Truthy(response.fields["success"]) || {"status", "error", "errors"} <= response.fields.Keys)
    ensures v == Fail(NoSuccessProperty) <==> !(response.JObject? && "success" in response.fields)
    ensures v.Pass? || v == Fail(NoSuccessProperty) || v == Fail(MissingErrorKeys)
  {
    PropOfPlainName(response, "success");
    match Prop(response, "success")
    case None => Fail(NoSuccessProperty)
    case Some(success) =>
      if !Truthy(success) && !HasAllKeys(response, {"status", "error", "errors"}) then Fail(MissingErrorKeys)
      else Pass
  }

  /** "Request data includes query": the request data must have a `query` property. */
  function QueryVerdict(requestData: Json): (v: Verdict)
    ensures v == Pass <==> requestData.JObject? && "query" in requestData.fields
    ensures v.Pass? || v == Fail(NoQueryProperty)
  {
    PropOfPlainName(requestData, "query");
    if Prop(requestData, "query").Some? then Pass else Fail(NoQueryProperty)
  }

  /** `pm.response.to.have.status(200)` */
  function StatusVerdict(status: int): (v: Verdict)
    ensures v == Pass <==> status == 200
    ensures v.Fail? ==> v.reason == StatusNot200(status)
  {
    if status == 200 then Pass else Fail(StatusNot200(status))
  }

  // ---------------------------------------------------------------------------
  // "Basic Structure"

  /** An option item: an object (not an array, not `null`) with both `display` and `value`. */
  predicate IsOptionItem(v: Json) {
    HasAllKeys(v, {"display", "value"})
  }

  /** The first index at or after `from` whose item is not an option item. */
  function FirstBadItem(options: seq<Json>, from: nat): (r: Option<nat>)
    requires from <= |options|
    ensures r.None? <==> forall j :: from <= j < |options| ==> IsOptionItem(options[j])
    ensures r.Some? ==>
      && from <= r.value < |options|
      && !IsOptionItem(options[r.value])
      && forall j :: from <= j < r.value ==> IsOptionItem(options[j])
    decreases |options| - from
  {
    if from == |options| then None
    else if !IsOptionItem(options[from]) then Some(from)
    else FirstBadItem(options, from + 1)
  }

  /** The verdict of the per-item loop: it stops at the first bad item and names its index. */
  function ItemsVerdict(options: seq<Json>): (v: Verdict)
    ensures v.Pass? <==> forall j :: 0 <= j < |options| ==> IsOptionItem(options[j])
    ensures v.Fail? ==>
      && v.reason.ItemMissingKeys?
      && v.reason.index < |options|
      && !IsOptionItem(options[v.reason.index])
      && forall j :: 0 <= j < v.reason.index ==> IsOptionItem(options[j])
  {
    match FirstBadItem(options, 0)
    case None => Pass
    case Some(i) => Fail(ItemMissingKeys(i))
  }

  /** Independently of the order of the checks: the list at the path the shape names inside
      `container`, the value of `response[key]`. That is `container.options` (with a query,
      and only when `container` is an object), `container[optionsKey]`, or `container`,
      when that value is an array. */
  function ListIn(container: Json, optionsKey: string, expectsQuery: bool): Option<seq<Json>> {
    var target :=
      if expectsQuery then (if container.JObject? then Prop(container, "options") else None)
      else if optionsKey != "" then Prop(container, optionsKey)
      else Some(container);
    match target
    case Some(JArray(items)) => Some(items)
    case _ => None
  }

  /** The list at the shape's path from the response, if `response` has `key`. */
  function ListAt(response: Json, key: string, optionsKey: string, expectsQuery: bool): Option<seq<Json>> {
    match Prop(response, key)
    case None => None
    case Some(container) => ListIn(container, optionsKey, expectsQuery)
  }

  /** The options list that the chosen shape finds, or why the shape check failed. */
  datatype Selection = Selected(options: seq<Json>) | Rejected(reason: Reason)

  /** Which list the test validates, given the value `container` of `response[key]`:
      with a query, `container` must be an object and `container.options` an array; else
      with an options key, `container[optionsKey]` must be an array; else `container`
      itself must be an array. An empty `optionsKey` is the falsy, absent one. */
  function SelectOptions(container: Json, name: string, optionsKey: string, expectsQuery: bool): (r: Selection)
    ensures r.Selected? <==> ListIn(container, optionsKey, expectsQuery).Some?
    ensures r.Selected? ==> ListIn(container, optionsKey, expectsQuery) == Some(r.options)
    ensures r.Rejected? ==>
      r.reason in {MissingOptionsProperty(name), OptionsNotArray, ReadOfNull}
    ensures r == Rejected(OptionsNotArray) <==>
      expectsQuery && container.JObject? && "options" in container.fields && !container.fields["options"].JArray?
    ensures r == Rejected(ReadOfNull) <==> !expectsQuery && optionsKey != "" && container.JNull?
  {
    if expectsQuery then
      if !container.JObject? || "options" !in container.fields then Rejected(MissingOptionsProperty(name))
      else if !container.fields["options"].JArray? then Rejected(OptionsNotArray)
      else Selected(container.fields["options"].items)
    else if optionsKey != "" then
      if container.JNull? then Rejected(ReadOfNull)
      else match Prop(container, optionsKey)
        case Some(JArray(items)) => Selected(items)
        case _ => Rejected(MissingOptionsProperty(name))
    else match container
      case JArray(items) => Selected(items)
      case _ => Rejected(MissingOptionsProperty(name))
  }

  /** The callback of the "Basic Structure" test. A response without `key` fails on that;
      one with no list at the shape's path fails on its shape, never on an item; one with a
      list there gets the verdict of the per-item loop. */
  function StructureVerdict(response: Json, name: string, key: string, optionsKey: string, expectsQuery: bool): (v: Verdict)
    ensures Prop(response, key).None? ==> v == Fail(ResponseMissingKey(key))
    ensures ListAt(response, key, optionsKey, expectsQuery).None? ==> v.Fail? && !v.reason.ItemMissingKeys?
    ensures ListAt(response, key, optionsKey, expectsQuery).Some? ==>
      v == ItemsVerdict(ListAt(response, key, optionsKey, expectsQuery).value)
  {
    match Prop(response, key)
    case None => Fail(ResponseMissingKey(key))
    case Some(container) =>
      match SelectOptions(container, name, optionsKey, expectsQuery)
      case Rejected(reason) => Fail(reason)
      case Selected(options) => ItemsVerdict(options)
  }

  /** "Basic Structure" passes exactly when the shape's path holds a list and every item of
      it is an option item; an empty list passes. */
  lemma StructurePassIff(response: Json, name: string, key: string, optionsKey: string, expectsQuery: bool)
    ensures StructureVerdict(response, name, key, optionsKey, expectsQuery) == Pass <==>
      && ListAt(response, key, optionsKey, expectsQuery).Some?
      && var options := ListAt(response, key, optionsKey, expectsQuery).value;
         forall j :: 0 <= j < |options| ==> IsOptionItem(options[j])
  {
  }

  /** The per-item `for` loop of the "Basic Structure" callback. */
  method CheckItems(options: seq<Json>) returns (v: Verdict)
    ensures v.Pass? <==> forall j :: 0 <= j < |options| ==> IsOptionItem(options[j])
    ensures v.Fail? ==>
      && v.reason.ItemMissingKeys?
      && v.reason.index < |options|
      && !IsOptionItem(options[v.reason.index])
      && forall j :: 0 <= j < v.reason.index ==> IsOptionItem(options[j])
    ensures v == ItemsVerdict(options)
  {
    v := Pass;
    if |options| > 0 {
      var i := 0;
      while i < |options|
        invariant 0 <= i <= |options|
        invariant forall j :: 0 <= j < i ==> IsOptionItem(options[j])
      {
        if !IsOptionItem(options[i]) {
          v := Fail(ItemMissingKeys(i));
          return;
        }
        i := i + 1;
      }
    }
  }

  /** The "Basic Structure" callback, run in order: the key, the shape, then the items. */
  method CheckStructure(response: Json, name: string, key: string, optionsKey: string, expectsQuery: bool) returns (v: Verdict)
    ensures v == StructureVerdict(response, name, key, optionsKey, expectsQuery)
  {
    var found := Prop(response, key);
    if found.None? {
      return Fail(ResponseMissingKey(key));
    }
    var selection := SelectOptions(found.value, name, optionsKey, expectsQuery);
    if selection.Rejected? {
      return Fail(selection.reason);
    }
    v := CheckItems(selection.options);
  }

  // ---------------------------------------------------------------------------
  // The endpoint label and the whole options test

  /** The display name after `runOptionsTest`: a non-empty scope header is appended. */
  function ScopedName(name: string, scope: Option<string>): (r: string)
    ensures |r| >= |name| && r[..|name|] == name
    ensures r == name <==> !(scope.Some? && scope.value != [])
    ensures r != name ==> r[|name|..] == " - " + scope.value
  {
    if scope.Some? && scope.value != [] then name + " - " + scope.value else name
  }

  /** The name after `k` runs of `runOptionsTest` on the same endpoint object. */
  function NameAfterRuns(name: string, scope: Option<string>, k: nat): string {
    if k == 0 then name else ScopedName(NameAfterRuns(name, scope, k - 1), scope)
  }

  function Repeat(s: string, k: nat): (r: string)
    ensures |r| == k * |s|
  {
    if k == 0 then [] else Repeat(s, k - 1) + s
  }

  /** Because the name is updated in place, the suffix accumulates: after `k` runs with a
      non-empty scope the name carries `k` copies of " - scope"; without one it is unchanged. */
  lemma {:induction false} ScopeSuffixAccumulates(name: string, scope: Option<string>, k: nat)
    ensures scope.Some? && scope.value != [] ==> NameAfterRuns(name, scope, k) == name + Repeat(" - " + scope.value, k)
    ensures !(scope.Some? && scope.value != []) ==> NameAfterRuns(name, scope, k) == name
  {
    if k > 0 {
      ScopeSuffixAccumulates(name, scope, k - 1);
      if scope.Some? && scope.value != [] {
        var piece := " - " + scope.value;
        assert name + Repeat(piece, k - 1) + " - " + scope.value == name + Repeat(piece, k);
      }
    }
  }

  /** The tests `runOptionsTest` records, in order, for an endpoint whose name is already
      `name` (scope applied): the error-shape test first, on `ambient`, the response the
      error test reads; the query test only when a query is expected; then the status test
      and the structure test, each labelled with the endpoint's name. */
  function OptionsTestResults(name: string, key: string, optionsKey: string, ambient: Json, response: Json,
                              requestData: Json, status: int, expectsQuery: bool): (r: seq<TestResult>)
    ensures |r| == (if expectsQuery then 4 else 3)
    ensures r[0] == TestResult(ErrorTestLabel, ErrorShapeVerdict(ambient))
    ensures expectsQuery ==> r[1] == TestResult(QueryTestLabel, QueryVerdict(requestData))
    ensures r[|r| - 2] == TestResult(name + ": Success", StatusVerdict(status))
    ensures r[|r| - 1].title == name + ": Basic Structure"
    ensures r[|r| - 1].verdict == Pass <==>
      && ListAt(response, key, optionsKey, expectsQuery).Some?
      && var options := ListAt(response, key, optionsKey, expectsQuery).value;
         forall j :: 0 <= j < |options| ==> IsOptionItem(options[j])
  {
    [TestResult(ErrorTestLabel, ErrorShapeVerdict(ambient))]
    + (if expectsQuery then [TestResult(QueryTestLabel, QueryVerdict(requestData))] else [])
    + [TestResult(SuccessLabel(name), StatusVerdict(status))]
    + [TestResult(StructureLabel(name), StructureVerdict(response, name, key, optionsKey, expectsQuery))]
  }

  /** Appending the error-shape result and then the later results of the options test is
      appending all of its results. */
  lemma AppendOptionsTestResults(before: seq<TestResult>, afterError: seq<TestResult>, after: seq<TestResult>,
                                 name: string, key: string, optionsKey: string, ambient: Json, response: Json,
                                 requestData: Json, status: int, expectsQuery: bool)
    requires afterError == before + [TestResult(ErrorTestLabel, ErrorShapeVerdict(ambient))]
    requires after == afterError
      + (if expectsQuery then [TestResult(QueryTestLabel, QueryVerdict(requestData))] else [])
      + [TestResult(SuccessLabel(name), StatusVerdict(status)),
         TestResult(StructureLabel(name), StructureVerdict(response, name, key, optionsKey, expectsQuery))]
    ensures after == before + OptionsTestResults(name, key, optionsKey, ambient, response, requestData, status, expectsQuery)
  {
  }

  /** Where `pm.test` records its outcomes, in the order the tests ran. */
  class TestReport {
    var results: seq<TestResult>

    constructor ()
      ensures results == []
    {
      results := [];
    }

    /** `pm.test(title, callback)`, with the callback's verdict already computed. */
    method Test(title: string, verdict: Verdict)
      modifies this
      ensures results == old(results) + [TestResult(title, verdict)]
    {
      results := results + [TestResult(title, verdict)];
    }
  }

  /** The endpoint descriptor a test script passes in; only its name is ever updated. */
  class Endpoint {
    var name: string
    const key: string
    const optionsKey: string

    constructor (name: string, key: string, optionsKey: string)
      ensures this.name == name && this.key == key && this.optionsKey == optionsKey
    {
      this.name := name;
      this.key := key;
      this.optionsKey := optionsKey;
    }
  }

  /** `runErrorResponseTest()`, on the response the script has in scope. */
  method RunErrorResponseTest(report: TestReport, response: Json)
    modifies report
    ensures report.results == old(report.results) + [TestResult(ErrorTestLabel, ErrorShapeVerdict(response))]
  {
    report.Test(ErrorTestLabel, ErrorShapeVerdict(response));
  }

  /** `runSuccessResponseTest(endpointName)`: the status of the response must be 200. */
  method RunSuccessResponseTest(report: TestReport, endpointName: string, status: int)
    modifies report
    ensures report.results == old(report.results) + [TestResult(SuccessLabel(endpointName), StatusVerdict(status))]
  {
    report.Test(SuccessLabel(endpointName), StatusVerdict(status));
  }

  /** The tests of `runOptionsTest` that follow the name update, recorded in order: the
      query test when a query is expected, then the status and structure tests for `name`. */
  method RecordLaterOptionsTests(report: TestReport, name: string, key: string, optionsKey: string,
                                 response: Json, requestData: Json, status: int, expectsQuery: bool)
    modifies report
    ensures report.results == old(report.results)
      + (if expectsQuery then [TestResult(QueryTestLabel, QueryVerdict(requestData))] else [])
      + [TestResult(SuccessLabel(name), StatusVerdict(status)),
         TestResult(StructureLabel(name), StructureVerdict(response, name, key, optionsKey, expectsQuery))]
  {
    if expectsQuery {
      report.Test(QueryTestLabel, QueryVerdict(requestData));
    }
    RunSuccessResponseTest(report, name, status);
    var verdict := CheckStructure(response, name, key, optionsKey, expectsQuery);
    report.Test(StructureLabel(name), verdict);
  }

  /** `runOptionsTest(pm, request, response, requestData, endpoint, expectsQuery)`.
      `scope` is the request's `format` header, `ambient` the response in the script's
      scope (which the error test reads), `status` the HTTP status of the response. */
  method RunOptionsTest(report: TestReport, endpoint: Endpoint, scope: Option<string>, ambient: Json,
                        response: Json, requestData: Json, status: int, expectsQuery: bool)
    modifies report, endpoint`name
    ensures endpoint.name == ScopedName(old(endpoint.name), scope)
    ensures report.results == old(report.results)
      + OptionsTestResults(endpoint.name, endpoint.key, endpoint.optionsKey, ambient, response, requestData, status, expectsQuery)
  {
    ghost var before := report.results;
    RunErrorResponseTest(report, ambient);
    if scope.Some? && scope.value != [] {
      endpoint.name := endpoint.name + " - " + scope.value;
    }
    var name, key, optionsKey := endpoint.name, endpoint.key, endpoint.optionsKey;
    ghost var afterError := report.results;
    RecordLaterOptionsTests(report, name, key, optionsKey, response, requestData, status, expectsQuery);
    AppendOptionsTestResults(before, afterError, report.results, name, key, optionsKey, ambient, response,
                             requestData, status, expectsQuery);
  }

  // ---------------------------------------------------------------------------
  // Worked cases

  /** A flat list of well-formed items passes "Basic Structure". */
  lemma FlatListPasses()
    ensures StructureVerdict(JObject(map["items" := JArray([JObject(map["display" := JString("A"), "value" := JNumber(1)])])]),
                             "Items", "items", "", false) == Pass
  {
  }

  /** An item without `value` fails "Basic Structure", naming index 0. */
  lemma ItemWithoutValueFails()
    ensures StructureVerdict(JObject(map["items" := JArray([JObject(map["display" := JString("A")])])]),
                             "Items", "items", "", false) == Fail(ItemMissingKeys(0))
  {
  }

  /** With a query, an empty `options` list passes. */
  lemma EmptyQueryOptionsPass()
    ensures StructureVerdict(JObject(map["items" := JObject(map["options" := JArray([])])]), "Items", "items", "", true) == Pass
  {
  }

  /** `success: false` without `errors` fails the error-shape test on its second expectation. */
  lemma FalseSuccessWithoutErrorsFails()
    ensures ErrorShapeVerdict(JObject(map["success" := JBool(false), "status" := JNumber(400), "error" := JString("x")]))
      == Fail(MissingErrorKeys)
  {
  }
}
