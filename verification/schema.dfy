/**
 * The shape of a submitted mock and the Joi schema it is checked against
 * (src/models/Mock.js:9-30, 119-127). Only the constraints the schema states are
 * modelled: Joi's own coercions and unknown-key rejection are not.
 */
module Schema {
  import opened Options
  import opened Errors
  import Json
  import Text

  /** One response to replay. The delay field is called `timeout` in the source. */
  datatype ResponseSpec = ResponseSpec(
    body: Option<Json.Value>,
    headers: Option<Json.Value>,
    statusCode: Option<int>,
    timeout: Option<int>)

  /** `response` is either one object or an array of them (a sequenced mock). */
  datatype ResponseField = Single(spec: ResponseSpec) | Sequence(specs: seq<ResponseSpec>)

  /** `request`; its `method` is called `verb` here. */
  datatype RequestSpec = RequestSpec(path: Option<string>, verb: Option<string>)

  /** A mock as submitted. `request` itself is always present (see README). */
  datatype MockDef = MockDef(name: Option<string>, request: RequestSpec, response: Option<ResponseField>)

  /** `statusCode` must be greater than this ... */
  const StatusAbove: int := 199
  /** ... and less than this. */
  const StatusBelow: int := 600

  // ---------------------------------------------------------------------------
  // The schema as a declarative predicate

  /** `Joi.string().required()`: present and, as Joi strings are by default, non-empty. */
  predicate RequiredString(f: Option<string>) {
    f.Some? && f.value != ""
  }

  predicate SpecValid(s: ResponseSpec) {
    && (s.body.Some? ==> s.body.value.Obj? || s.body.value.Arr?)
    && (s.headers.Some? ==> s.headers.value.Obj?)
    && s.statusCode.Some? && StatusAbove < s.statusCode.value < StatusBelow
  }

  predicate ResponseValid(f: ResponseField) {
    match f
    case Single(s) => SpecValid(s)
    case Sequence(ss) => forall i :: 0 <= i < |ss| ==> SpecValid(ss[i])
  }

  /**
   * Every constraint of the schema. `method` is optional, and `.allow(...)` only
   * whitelists the five verbs without excluding anything, so any non-empty string passes.
   */
  predicate IsValid(m: MockDef) {
    && RequiredString(m.name)
    && RequiredString(m.request.path)
    && (m.request.verb.Some? ==> m.request.verb.value != "")
    && m.response.Some?
    && ResponseValid(m.response.value)
  }

  /** What each violation means of a single response object. */
  predicate SpecViolates(s: ResponseSpec, v: Violation) {
    match v
    case BodyNotObjectOrArray(_) => s.body.Some? && !(s.body.value.Obj? || s.body.value.Arr?)
    case HeadersNotObject(_) => s.headers.Some? && !s.headers.value.Obj?
    case StatusCodeMissing(_) => s.statusCode.None?
    case StatusCodeTooLow(_) => s.statusCode.Some? && s.statusCode.value <= StatusAbove
    case StatusCodeTooHigh(_) => s.statusCode.Some? && s.statusCode.value >= StatusBelow
    case _ => false
  }

  /** What each violation means of a whole mock: `v` names a constraint `m` breaks. */
  predicate Violates(m: MockDef, v: Violation) {
    match v
    case NameMissing => m.name.None?
    case NameEmpty => m.name == Some("")
    case PathMissing => m.request.path.None?
    case PathEmpty => m.request.path == Some("")
    case MethodEmpty => m.request.verb == Some("")
    case ResponseMissing => m.response.None?
    case BodyNotObjectOrArray(at) => ResponseViolates(m.response, at, v)
    case HeadersNotObject(at) => ResponseViolates(m.response, at, v)
    case StatusCodeMissing(at) => ResponseViolates(m.response, at, v)
    case StatusCodeTooLow(at) => ResponseViolates(m.response, at, v)
    case StatusCodeTooHigh(at) => ResponseViolates(m.response, at, v)
  }

  predicate ResponseViolates(f: Option<ResponseField>, at: Where, v: Violation) {
    match at
    case Only => f.Some? && f.value.Single? && SpecViolates(f.value.spec, v)
    case Item(i) => f.Some? && f.value.Sequence? && i < |f.value.specs| && SpecViolates(f.value.specs[i], v)
  }

  // ---------------------------------------------------------------------------
  // The check as Joi runs it: keys in schema order, stopping at the first error

  /** The first broken constraint of one response, keys in schema order. */
  function SpecViolation(s: ResponseSpec, at: Where): (v: Option<Violation>)
    ensures v.None? <==> SpecValid(s)
    ensures v.Some? ==> SpecViolates(s, v.value) && v.value.at == at
  {
    if s.body.Some? && !(s.body.value.Obj? || s.body.value.Arr?) then Some(BodyNotObjectOrArray(at))
    else if s.headers.Some? && !s.headers.value.Obj? then Some(HeadersNotObject(at))
    else if s.statusCode.None? then Some(StatusCodeMissing(at))
    else if s.statusCode.value <= StatusAbove then Some(StatusCodeTooLow(at))
    else if s.statusCode.value >= StatusBelow then Some(StatusCodeTooHigh(at))
    else None
  }

  /** The first broken constraint among `ss[i..]`, elements in order. */
  function SequenceViolation(ss: seq<ResponseSpec>, i: nat): (v: Option<Violation>)
    requires i <= |ss|
    ensures v.None? <==> forall j :: i <= j < |ss| ==> SpecValid(ss[j])
    ensures v.Some? ==> exists j :: i <= j < |ss| && SpecViolates(ss[j], v.value) && v.value.at == Item(j)
    decreases |ss| - i
  {
    if i == |ss| then None
    else
      var here := SpecViolation(ss[i], Item(i));
      if here.Some? then here else SequenceViolation(ss, i + 1)
  }

  /** The first broken constraint of a whole mock, or None when it passes the schema. */
  function FirstViolation(m: MockDef): (v: Option<Violation>)
    ensures v.None? <==> IsValid(m)
    ensures v.Some? ==> Violates(m, v.value)
  {
    if m.name.None? then Some(NameMissing)
    else if m.name.value == "" then Some(NameEmpty)
    else if m.request.path.None? then Some(PathMissing)
    else if m.request.path.value == "" then Some(PathEmpty)
    else if m.request.verb == Some("") then Some(MethodEmpty)
    else if m.response.None? then Some(ResponseMissing)
    else match m.response.value
      case Single(s) => SpecViolation(s, Only)
      case Sequence(ss) => SequenceViolation(ss, 0)
  }

  // ---------------------------------------------------------------------------
  // The value Joi hands back

  /** `.uppercase()` on the optional method. */
  function UpperVerb(verb: Option<string>): Option<string> {
    match verb
    case Some(s) => Some(Text.Upper(s))
    case None => None
  }

  /** `body` defaults to `{}` and `timeout` to 0. */
  function WithDefaults(s: ResponseSpec): ResponseSpec {
    s.(body := Some(s.body.GetOr(Json.EmptyObject)), timeout := Some(s.timeout.GetOr(0)))
  }

  /** `s2` is `s` with the schema defaults filled in. */
  predicate Defaulted(s: ResponseSpec, s2: ResponseSpec) {
    && s2.headers == s.headers
    && s2.statusCode == s.statusCode
    && (s.body.Some? ==> s2.body == s.body)
    && (s.body.None? ==> s2.body == Some(Json.EmptyObject))
    && (s.timeout.Some? ==> s2.timeout == s.timeout)
    && (s.timeout.None? ==> s2.timeout == Some(0))
  }

  predicate ResponseDefaulted(f: ResponseField, f2: ResponseField) {
    match f
    case Single(s) => f2.Single? && Defaulted(s, f2.spec)
    case Sequence(ss) =>
      && f2.Sequence? && |f2.specs| == |ss|
      && forall i :: 0 <= i < |ss| ==> Defaulted(ss[i], f2.specs[i])
  }

  /** `schema.validate(mock)`: the converted value, or the first violation as a ValidationError. */
  function Validate(m: MockDef): (r: Result<MockDef>)
    ensures r.Ok? <==> IsValid(m)
    ensures r.Err? ==> r.error.Validation? && Violates(m, r.error.violation)
    ensures r.Ok? ==> r.value.name == m.name
    ensures r.Ok? ==> r.value.request == RequestSpec(m.request.path, UpperVerb(m.request.verb))
    ensures r.Ok? ==> r.value.response.Some? && ResponseDefaulted(m.response.value, r.value.response.value)
  {
    match FirstViolation(m)
    case Some(v) => Err(Validation(v))
    case None =>
      var response := match m.response.value
        case Single(s) => Single(WithDefaults(s))
        case Sequence(ss) => Sequence(seq(|ss|, i requires 0 <= i < |ss| => WithDefaults(ss[i])));
      Ok(MockDef(m.name, RequestSpec(m.request.path, UpperVerb(m.request.verb)), Some(response)))
  }
}
