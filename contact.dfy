/** The contact-form endpoint: a POST handler that validates the submitted
    form, checks for the database binding, appends one row to the contacts
    table and answers with a JSON response. The parsed request body, the
    binding, the insert's outcome and the clock are inputs. */
module Contact {
  import opened Wrappers

  /** A form field after JSON parsing: undefined, or a string. */
  type Field = Option<string>

  /** JavaScript truthiness of a field: present and not the empty string. */
  predicate Truthy(f: Field) {
    f.Some? && f.value != ""
  }

  /** The submitted form; every field may be missing. */
  datatype Form = Form(name: Field, email: Field, phone: Field, message: Field)

  /** What request.json() produced: it threw, it gave JSON null (whose
      fields cannot be read), or it gave an object. */
  datatype Parsed = Malformed | JsonNull | Object(form: Form)

  /** A row of the contacts table. */
  datatype Row = Row(name: string, email: string, phone: string, message: string, createdAt: string)

  /** The JSON body of a response. */
  datatype Payload = Failure(error: string) | Success(success: bool, message: string)

  datatype Response = Response(status: int, contentType: string, body: Payload)

  const JsonType := "application/json"
  const RequiredError := "Name, email, and message are required"
  const ConfigError := "Database configuration error"
  const SubmitError := "Failed to submit contact form"
  const SubmittedMessage := "Contact form submitted successfully"

  /** The three required fields are all truthy. */
  predicate Complete(f: Form) {
    Truthy(f.name) && Truthy(f.email) && Truthy(f.message)
  }

  /** The row inserted for an accepted form, stamped with `now`. */
  function RowFor(f: Form, now: string): (r: Row)
    requires Complete(f)
    ensures Some(r.name) == f.name && Some(r.email) == f.email && Some(r.message) == f.message
    ensures r.name != "" && r.email != "" && r.message != ""
    ensures r.phone == "" <==> !Truthy(f.phone)
    ensures r.phone != "" ==> Some(r.phone) == f.phone
    ensures r.createdAt == now
  {
    Row(f.name.value, f.email.value, if Truthy(f.phone) then f.phone.value else "", f.message.value, now)
  }

  function Reply(status: int, body: Payload): Response {
    Response(status, JsonType, body)
  }

  /** The response of the handler, decided in the order of its checks:
      parsing, the required fields, the binding, then the insert. */
  function HandlerResponse(parsed: Parsed, hasBinding: bool, insertFails: bool): (r: Response)
    ensures r.contentType == JsonType
    ensures r.status in {200, 400, 500}
    ensures r.status == 200 <==> parsed.Object? && Complete(parsed.form) && hasBinding && !insertFails
    ensures r.status == 400 <==> parsed.Object? && !Complete(parsed.form)
    ensures r.status == 200 ==> r.body == Success(true, SubmittedMessage)
    ensures r.status == 400 ==> r.body == Failure(RequiredError)
    ensures r.body == Failure(ConfigError) <==> parsed.Object? && Complete(parsed.form) && !hasBinding
    ensures r.body == Failure(SubmitError) <==>
      !parsed.Object? || (Complete(parsed.form) && hasBinding && insertFails)
  {
    match parsed
    case Malformed => Reply(500, Failure(SubmitError))
    case JsonNull => Reply(500, Failure(SubmitError))
    case Object(f) =>
      if !Complete(f) then Reply(400, Failure(RequiredError))
      else if !hasBinding then Reply(500, Failure(ConfigError))
      else if insertFails then Reply(500, Failure(SubmitError))
      else Reply(200, Success(true, SubmittedMessage))
  }

  /** The contacts table after one call: one row more when the call
      succeeded, the same rows otherwise. */
  function Stored(rows: seq<Row>, parsed: Parsed, insertFails: bool, now: string): (rows': seq<Row>)
    ensures HandlerResponse(parsed, true, insertFails).status == 200 ==>
      |rows'| == |rows| + 1 && rows'[..|rows|] == rows && rows'[|rows|] == RowFor(parsed.form, now)
    ensures HandlerResponse(parsed, true, insertFails).status != 200 ==> rows' == rows
  {
    if HandlerResponse(parsed, true, insertFails).status == 200 then rows + [RowFor(parsed.form, now)] else rows
  }

  /** One request against a deployment whose binding exists. */
  datatype Call = Call(parsed: Parsed, insertFails: bool, now: string)

  /** The call is answered 200 and so stores its row. */
  predicate Accepted(c: Call) {
    HandlerResponse(c.parsed, true, c.insertFails).status == 200
  }

  /** The contacts table after the calls are served one after another. */
  function Replay(rows: seq<Row>, calls: seq<Call>): seq<Row>
    decreases |calls|
  {
    if calls == [] then rows
    else Replay(Stored(rows, calls[0].parsed, calls[0].insertFails, calls[0].now), calls[1..])
  }

  /** The rows of the accepted calls, in the order of the calls. */
  function AcceptedRows(calls: seq<Call>): seq<Row> {
    if calls == [] then []
    else
      var first := if Accepted(calls[0]) then [RowFor(calls[0].parsed.form, calls[0].now)] else [];
      first + AcceptedRows(calls[1..])
  }

  /** The table is append-only: serving any sequence of calls keeps every
      existing row in place and adds exactly one row per accepted call, in
      the order of the calls. */
  lemma {:induction false} ReplayAppendsAcceptedRows(rows: seq<Row>, calls: seq<Call>)
    ensures Replay(rows, calls) == rows + AcceptedRows(calls)
    decreases |calls|
  {
    if calls != [] {
      var c := calls[0];
      var next := Stored(rows, c.parsed, c.insertFails, c.now);
      ReplayAppendsAcceptedRows(next, calls[1..]);
      if Accepted(c) {
        assert next == rows + [RowFor(c.parsed.form, c.now)];
      }
    }
  }

  /** The D1 binding with its contacts table. */
  class Database {
    var contacts: seq<Row>

    /** The prepared INSERT. Being one statement, it never leaves a partial
        row; a call that throws is taken to have committed nothing. */
    method Insert(row: Row, fails: bool) returns (ok: bool)
      modifies this
      ensures ok == !fails
      ensures contacts == if ok then old(contacts) + [row] else old(contacts)
    {
      ok := !fails;
      if ok {
        contacts := contacts + [row];
      }
    }
  }

  /** onRequestPost. `db` is null when the binding is missing; `insertFails`
      says whether the database throws on the insert; `now` is the
      timestamp new Date().toISOString() would give. */
  method OnRequestPost(parsed: Parsed, db: Database?, now: string, insertFails: bool) returns (r: Response)
    modifies db
    ensures r == HandlerResponse(parsed, db != null, insertFails)
    ensures db != null ==> db.contacts == Stored(old(db.contacts), parsed, insertFails, now)
  {
    if !parsed.Object? {
      return Reply(500, Failure(SubmitError));
    }
    var data := parsed.form;
    if !Truthy(data.name) || !Truthy(data.email) || !Truthy(data.message) {
      return Reply(400, Failure(RequiredError));
    }
    if db == null {
      return Reply(500, Failure(ConfigError));
    }
    var ok := db.Insert(RowFor(data, now), insertFails);
    if !ok {
      return Reply(500, Failure(SubmitError));
    }
    r := Reply(200, Success(true, SubmittedMessage));
  }

  /** A form missing a required field is answered 400 whether or not the
      binding exists: validation comes first. */
  lemma ValidationBeforeBinding(f: Form, hasBinding: bool, insertFails: bool)
    requires !Complete(f)
    ensures HandlerResponse(Object(f), hasBinding, insertFails) == Response(400, JsonType, Failure(RequiredError))
  {
  }

  /** No deduplication: the same accepted form submitted twice is stored twice. */
  lemma NoDeduplication(rows: seq<Row>, f: Form, now: string, later: string)
    requires Complete(f)
    ensures Stored(Stored(rows, Object(f), false, now), Object(f), false, later)
      == rows + [RowFor(f, now), RowFor(f, later)]
  {
  }

  /** The sample form {name:"Alice", email:"a@x.com", message:"Hi"} is
      stored with an empty phone, and the same form with an empty name is
      refused. */
  lemma SubmissionExamples(rows: seq<Row>, now: string)
    ensures var f := Form(Some("Alice"), Some("a@x.com"), None, Some("Hi"));
      HandlerResponse(Object(f), true, false).status == 200 &&
      Stored(rows, Object(f), false, now) == rows + [Row("Alice", "a@x.com", "", "Hi", now)]
    ensures var f := Form(Some(""), Some("a@x.com"), None, Some("Hi"));
      HandlerResponse(Object(f), true, false).status == 400 && Stored(rows, Object(f), false, now) == rows
  {
  }
}
