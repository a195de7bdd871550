/**
 * The subscription request handlers (internal/subs/handlers.go). Each
 * handler is a single pass: read the query or path, decode the body, make
 * at most one repository call, map the rows, and answer once, either with
 * SendData(payload, 200) or with SendError(message, status).
 *
 * What the handlers cannot see is passed in as an Env: the repository's
 * answers, uuid.Parse, the JSON decoder's split of the body into fields,
 * and whether encoding/json manages to encode a payload. The date fields
 * of a body go through the live date codec.
 */
module Handlers {
  import opened Wrappers
  import opened GoTypes
  import opened GoTime
  import Strconv
  import GoStrings
  import JsonDate

  const StatusOK: int := 200
  const StatusBadRequest: int := 400
  const StatusInternalServerError: int := 500

  const MsgQuery: string := "Error: could not parse url query"
  const MsgPath: string := "Error: could not parse path value"
  const MsgDecode: string := "Error: something went wrong on decoding json"
  const MsgStore: string := "Error: something went wrong on sql query"
  const MsgEncode: string := "Error: something went wrong on encoding json"
  const MsgNoUser: string := "Error: query param `user_id` is not provided"

  /** sql.NullTime: a time and whether it is present. */
  datatype NullTime = NullTime(time: Date, valid: bool)

  /** A subscription row as the repository returns it (the fields the handlers read). */
  datatype Row = Row(id: int32, serviceName: string, price: int32, userId: Uuid, startedAt: Date, endedAt: NullTime)

  /** subJSON: the wire shape of a subscription, with both dates in the MM-YYYY codec. */
  datatype SubJSON = SubJSON(
    id: int32, serviceName: string, price: int32, userId: Uuid,
    startedAt: JsonDate.JSONDate, endedAt: JsonDate.JSONDate)

  /** db.AddSubParams. */
  datatype AddSubParams = AddSubParams(serviceName: string, price: int32, userId: Uuid, startedAt: Date, endedAt: NullTime)

  /** db.UpdateSubParams; updatedAt is the clock reading the handler takes. */
  datatype UpdateSubParams = UpdateSubParams(
    id: int32, serviceName: string, price: int32, userId: Uuid,
    startedAt: Date, endedAt: NullTime, updatedAt: Date)

  /** Any failure of the store; the handlers never look inside it. */
  datatype StoreError = StoreError

  /** A repository operation as the handler invoked it, with its arguments. */
  datatype RepoCall =
    | GetSubsCall
    | GetUserSubsCall(user: Uuid)
    | GetSubCall(id: int32)
    | AddSubCall(add: AddSubParams)
    | UpdateSubCall(update: UpdateSubParams)
    | DeleteSubCall(id: int32)
    | DeleteUserSubsCall(user: Uuid)

  /** The repository as an oracle: what each query answers for each argument. */
  datatype Repo = Repo(
    getSubs: Result<Slice<Row>, StoreError>,
    getUserSubs: Uuid -> Result<Slice<Row>, StoreError>,
    getSub: int32 -> Result<Row, StoreError>,
    addSub: AddSubParams -> Result<int32, StoreError>,
    updateSub: UpdateSubParams -> Result<int32, StoreError>,
    deleteSub: int32 -> Result<int32, StoreError>,
    deleteUserSubs: Uuid -> Result<Slice<int32>, StoreError>)

  /**
   * A request body as encoding/json splits it: the plain fields already
   * decoded, and the raw JSON text of each date field that is present
   * (absent fields keep their zero value).
   */
  datatype RawSub = RawSub(
    id: int32, serviceName: string, price: int32, userId: Uuid,
    startDate: Option<string>, endDate: Option<string>)

  /** The data handed to SendData. */
  datatype Payload =
    | SubList(subs: Slice<SubJSON>)
    | OneSub(sub: SubJSON)
    | SubId(id: int32)
    | SubIds(ids: Slice<int32>)

  /** The single answer a handler gives. */
  datatype Outcome =
    | SendData(payload: Payload, status: int)
    | SendError(msg: string, status: int)

  /** The repository calls a handler made, in order, and its answer. */
  datatype Exchange = Exchange(calls: seq<RepoCall>, outcome: Outcome)

  /** Everything outside the handler's own code. */
  datatype Env = Env(
    repo: Repo,
    parseUuid: string -> Option<Uuid>,
    decodeBody: string -> Option<RawSub>,
    encodes: Payload -> bool)

  /** The parts of an HTTP request the handlers read; an absent `user_id` reads as "". */
  datatype Request = Request(userId: string, pathId: string, body: string)

  /** Answer with the payload, or with the encoding error when encoding/json rejects it. */
  function Reply(env: Env, calls: seq<RepoCall>, p: Payload): (x: Exchange)
    ensures x.calls == calls
    ensures env.encodes(p) <==> x.outcome == SendData(p, StatusOK)
    ensures !env.encodes(p) <==> x.outcome == SendError(MsgEncode, StatusInternalServerError)
    ensures Answers(env, x.outcome, p)
  {
    Exchange(calls, if env.encodes(p) then SendData(p, StatusOK) else SendError(MsgEncode, StatusInternalServerError))
  }

  /**
   * The answer SendData gives for p: the payload with 200 when
   * encoding/json accepts it, and otherwise the encoding error with 500.
   */
  predicate Answers(env: Env, o: Outcome, p: Payload) {
    if env.encodes(p) then o == SendData(p, StatusOK)
    else o == SendError(MsgEncode, StatusInternalServerError)
  }

  function Fail(calls: seq<RepoCall>, msg: string): Exchange {
    Exchange(calls, SendError(msg, StatusInternalServerError))
  }

  /**
   * A date field of the body: absent, it keeps the zero time; present,
   * its raw text is decoded by UnmarshalJSON into the zero time.
   */
  function DecodeDate(raw: Option<string>): (r: Option<Date>)
    ensures raw.None? ==> r == Some(Zero)
    ensures raw.Some? ==> (r.Some? <==> JsonDate.UnmarshalJSON(Zero, raw.value).err.None?)
    ensures raw.Some? && r.Some? ==> r.value == JsonDate.UnmarshalJSON(Zero, raw.value).target
  {
    match raw
    case None => Some(Zero)
    case Some(text) =>
      var d := JsonDate.UnmarshalJSON(Zero, text);
      if d.err.Some? then None else Some(d.target)
  }

  /** json.NewDecoder(body).Decode(&sub) into a zero subJSON: fails if the body or either date fails. */
  function DecodeBody(env: Env, body: string): (r: Option<SubJSON>)
    ensures r.Some? <==>
      && env.decodeBody(body).Some?
      && DecodeDate(env.decodeBody(body).value.startDate).Some?
      && DecodeDate(env.decodeBody(body).value.endDate).Some?
    ensures r.Some? ==> var raw := env.decodeBody(body).value;
      && r.value.id == raw.id && r.value.serviceName == raw.serviceName
      && r.value.price == raw.price && r.value.userId == raw.userId
      && Some(r.value.startedAt) == DecodeDate(raw.startDate)
      && Some(r.value.endedAt) == DecodeDate(raw.endDate)
  {
    match env.decodeBody(body)
    case None => None
    case Some(raw) =>
      match (DecodeDate(raw.startDate), DecodeDate(raw.endDate))
      case (Some(start), Some(end)) => Some(SubJSON(raw.id, raw.serviceName, raw.price, raw.userId, start, end))
      case _ => None
  }

  /** A wire record copies a row field for field; the end date is the row's end time whether or not it is valid. */
  predicate Mirrors(s: SubJSON, row: Row) {
    && s.id == row.id && s.serviceName == row.serviceName && s.price == row.price
    && s.userId == row.userId && s.startedAt == row.startedAt && s.endedAt == row.endedAt.time
  }

  function ToJSON(row: Row): (s: SubJSON)
    ensures Mirrors(s, row)
  {
    SubJSON(row.id, row.serviceName, row.price, row.userId, row.startedAt, row.endedAt.time)
  }

  /** The loop that appends one subJSON per row: same length, same order, every element a mirror of its row. */
  function MapRows(rows: seq<Row>): (subs: seq<SubJSON>)
    ensures |subs| == |rows|
    ensures forall i :: 0 <= i < |rows| ==> Mirrors(subs[i], rows[i])
  {
    if |rows| == 0 then []
    else MapRows(rows[..|rows| - 1]) + [ToJSON(rows[|rows| - 1])]
  }

  /** The payload lists the rows: a non-nil array of their mirrors, in order. */
  predicate ListsRows(p: Payload, rows: Slice<Row>) {
    && p.SubList? && p.subs.Slice?
    && |p.subs.elems| == |rows.Elems()|
    && forall i :: 0 <= i < |rows.Elems()| ==> Mirrors(p.subs.elems[i], rows.Elems()[i])
  }

  /** The listing the handler builds: starts from an empty, non-nil slice and appends a mirror per row. */
  function ListPayload(rows: Slice<Row>): (p: Payload)
    ensures ListsRows(p, rows)
  {
    SubList(Slice(MapRows(rows.Elems())))
  }

  function ListReply(env: Env, calls: seq<RepoCall>, listed: Result<Slice<Row>, StoreError>): (x: Exchange)
    ensures x.calls == calls
    ensures listed.Err? ==> x.outcome == SendError(MsgStore, StatusInternalServerError)
    ensures listed.Ok? ==> Answers(env, x.outcome, ListPayload(listed.value))
    ensures x.outcome.SendData? ==> listed.Ok? && x.outcome.status == StatusOK && ListsRows(x.outcome.payload, listed.value)
    ensures x.outcome.SendError? ==> x.outcome.status == StatusInternalServerError
  {
    match listed
    case Err(_) => Fail(calls, MsgStore)
    case Ok(rows) => Reply(env, calls, ListPayload(rows))
  }

  /**
   * GET /api/subs[?user_id=]: with a user_id, parse it and list that
   * user's subscriptions; without one, list all. A bad user_id answers
   * 500 before the store is touched, and a failed listing answers the
   * store error on both branches. Success is an array, never null. This
   * is the handler as evidently intended; GetSubsAsWritten is the code.
   */
  function GetSubs(env: Env, req: Request): (x: Exchange)
    ensures req.userId == "" ==> x.calls == [GetSubsCall]
    ensures req.userId == "" && x.outcome.SendData? ==> env.repo.getSubs.Ok? && ListsRows(x.outcome.payload, env.repo.getSubs.value)
    ensures req.userId == "" && env.repo.getSubs.Err? ==> x.outcome == SendError(MsgStore, StatusInternalServerError)
    ensures req.userId == "" && env.repo.getSubs.Ok? ==> Answers(env, x.outcome, ListPayload(env.repo.getSubs.value))
    ensures req.userId != "" && env.parseUuid(req.userId).None? ==>
      x == Exchange([], SendError(MsgQuery, StatusInternalServerError))
    ensures req.userId != "" && env.parseUuid(req.userId).Some? ==>
      var u := env.parseUuid(req.userId).value;
      && x.calls == [GetUserSubsCall(u)]
      && (env.repo.getUserSubs(u).Err? ==> x.outcome == SendError(MsgStore, StatusInternalServerError))
      && (env.repo.getUserSubs(u).Ok? ==> Answers(env, x.outcome, ListPayload(env.repo.getUserSubs(u).value)))
      && (x.outcome.SendData? ==> env.repo.getUserSubs(u).Ok? && ListsRows(x.outcome.payload, env.repo.getUserSubs(u).value))
    ensures x.outcome.SendData? ==> x.outcome.status == StatusOK
    ensures x.outcome.SendError? ==> x.outcome.status == StatusInternalServerError
  {
    if req.userId != "" then
      match env.parseUuid(req.userId)
      case None => Fail([], MsgQuery)
      case Some(u) => ListReply(env, [GetUserSubsCall(u)], env.repo.getUserSubs(u))
    else ListReply(env, [GetSubsCall], env.repo.getSubs)
  }

  /**
   * GET /api/subs exactly as written. In the user_id branch the UUID is
   * parsed with `:=`, which declares a second `err` local to that branch;
   * the listing's error is assigned to that inner variable, and the check
   * after the branch reads the outer one, which is still nil. A failed
   * listing therefore goes on to the row mapping with the slice the store
   * returned alongside its error: nil, by the repository's convention,
   * so the answer is an empty array.
   */
  function GetSubsAsWritten(env: Env, req: Request): (x: Exchange)
    ensures req.userId == "" ==> x == GetSubs(env, req)
    ensures req.userId != "" && env.parseUuid(req.userId).None? ==>
      x == Exchange([], SendError(MsgQuery, StatusInternalServerError))
    ensures req.userId != "" && env.parseUuid(req.userId).Some? ==>
      var u := env.parseUuid(req.userId).value;
      && x.calls == [GetUserSubsCall(u)]
      && x.outcome != SendError(MsgStore, StatusInternalServerError)
      && (env.repo.getUserSubs(u).Ok? ==> x == GetSubs(env, req))
      && (env.repo.getUserSubs(u).Err? ==> Answers(env, x.outcome, ListPayload(Nil)))
    ensures x.outcome.SendData? ==> x.outcome.status == StatusOK
    ensures x.outcome.SendError? ==> x.outcome.status == StatusInternalServerError
  {
    if req.userId != "" then
      match env.parseUuid(req.userId)
      case None => Fail([], MsgQuery)
      case Some(u) =>
        var rows := match env.repo.getUserSubs(u) case Ok(r) => r case Err(_) => Nil;
        Reply(env, [GetUserSubsCall(u)], ListPayload(rows))
    else ListReply(env, [GetSubsCall], env.repo.getSubs)
  }

  /**
   * The shadowed error in GetSubsAsWritten: when listing a user's
   * subscriptions fails, the code answers 200 with an empty array, where
   * the intended handler answers the store error with 500.
   */
  lemma UserListingFailureSwallowed(env: Env, req: Request)
    requires req.userId != "" && env.parseUuid(req.userId).Some?
    requires env.repo.getUserSubs(env.parseUuid(req.userId).value).Err?
    requires env.encodes(SubList(Slice([])))
    ensures GetSubsAsWritten(env, req).outcome == SendData(SubList(Slice([])), StatusOK)
    ensures GetSubs(env, req).outcome == SendError(MsgStore, StatusInternalServerError)
  {
  }

  /**
   * GET /api/sub/{id}: parse the id as a 32-bit decimal and fetch that
   * row. The answer carries the path id, not the row's own id.
   */
  function GetSub(env: Env, req: Request): (x: Exchange)
    ensures Strconv.ParseInt32(req.pathId).None? ==> x == Exchange([], SendError(MsgPath, StatusInternalServerError))
    ensures Strconv.ParseInt32(req.pathId).Some? ==> var id := Strconv.ParseInt32(req.pathId).value;
      && x.calls == [GetSubCall(id)]
      && (env.repo.getSub(id).Err? ==> x.outcome == SendError(MsgStore, StatusInternalServerError))
      && (env.repo.getSub(id).Ok? ==> Answers(env, x.outcome, OneSub(ToJSON(env.repo.getSub(id).value).(id := id))))
      && (x.outcome.SendData? ==>
            && env.repo.getSub(id).Ok? && x.outcome.payload.OneSub?
            && x.outcome.payload.sub.id == id
            && Mirrors(x.outcome.payload.sub, env.repo.getSub(id).value.(id := id)))
    ensures x.outcome.SendData? ==> x.outcome.status == StatusOK
    ensures x.outcome.SendError? ==> x.outcome.status == StatusInternalServerError
  {
    match Strconv.ParseInt32(req.pathId)
    case None => Fail([], MsgPath)
    case Some(id) =>
      match env.repo.getSub(id)
      case Err(_) => Fail([GetSubCall(id)], MsgStore)
      case Ok(row) => Reply(env, [GetSubCall(id)], OneSub(ToJSON(row).(id := id)))
  }

  /** The insert parameters built from a decoded body: the end date is always marked valid. */
  function AddParams(sub: SubJSON): (p: AddSubParams)
    ensures p.endedAt.valid && p.endedAt.time == sub.endedAt
    ensures p.startedAt == sub.startedAt && p.serviceName == sub.serviceName
    ensures p.price == sub.price && p.userId == sub.userId
  {
    AddSubParams(sub.serviceName, sub.price, sub.userId, sub.startedAt, NullTime(sub.endedAt, true))
  }

  /**
   * POST /api/sub: decode the body, insert it, and answer the decoded
   * body with its id replaced by the one the store assigned.
   */
  function PostSub(env: Env, req: Request): (x: Exchange)
    ensures DecodeBody(env, req.body).None? ==> x == Exchange([], SendError(MsgDecode, StatusInternalServerError))
    ensures DecodeBody(env, req.body).Some? ==> var sub := DecodeBody(env, req.body).value;
      && x.calls == [AddSubCall(AddParams(sub))]
      && x.calls[0].add.endedAt.valid
      && (env.repo.addSub(AddParams(sub)).Err? ==> x.outcome == SendError(MsgStore, StatusInternalServerError))
      && (env.repo.addSub(AddParams(sub)).Ok? ==>
            Answers(env, x.outcome, OneSub(sub.(id := env.repo.addSub(AddParams(sub)).value))))
      && (x.outcome.SendData? ==>
            && env.repo.addSub(AddParams(sub)).Ok?
            && x.outcome.payload == OneSub(sub.(id := env.repo.addSub(AddParams(sub)).value)))
    ensures x.outcome.SendData? ==> x.outcome.status == StatusOK
    ensures x.outcome.SendError? ==> x.outcome.status == StatusInternalServerError
  {
    match DecodeBody(env, req.body)
    case None => Fail([], MsgDecode)
    case Some(sub) =>
      var params := AddParams(sub);
      match env.repo.addSub(params)
      case Err(_) => Fail([AddSubCall(params)], MsgStore)
      case Ok(id) => Reply(env, [AddSubCall(params)], OneSub(sub.(id := id)))
  }

  /** The update parameters: the path id, the body's fields, a valid end date and the clock reading. */
  function UpdateParams(id: int32, sub: SubJSON, now: Date): (p: UpdateSubParams)
    ensures p.id == id && p.updatedAt == now
    ensures p.endedAt.valid && p.endedAt.time == sub.endedAt
    ensures p.startedAt == sub.startedAt && p.serviceName == sub.serviceName
    ensures p.price == sub.price && p.userId == sub.userId
  {
    UpdateSubParams(id, sub.serviceName, sub.price, sub.userId, sub.startedAt, NullTime(sub.endedAt, true), now)
  }

  /**
   * PUT /api/sub/{id}: parse the path id, then decode the body, then
   * update; the store gets the path id (never the body's) and the answer
   * carries the id the store returns. `now` stands for time.Now().
   */
  function PutSub(env: Env, req: Request, now: Date): (x: Exchange)
    ensures Strconv.ParseInt32(req.pathId).None? ==> x == Exchange([], SendError(MsgPath, StatusInternalServerError))
    ensures Strconv.ParseInt32(req.pathId).Some? && DecodeBody(env, req.body).None? ==>
      x == Exchange([], SendError(MsgDecode, StatusInternalServerError))
    ensures Strconv.ParseInt32(req.pathId).Some? && DecodeBody(env, req.body).Some? ==>
      var id := Strconv.ParseInt32(req.pathId).value;
      var sub := DecodeBody(env, req.body).value;
      var params := UpdateParams(id, sub, now);
      && x.calls == [UpdateSubCall(params)]
      && x.calls[0].update.id == id && x.calls[0].update.endedAt.valid
      && (env.repo.updateSub(params).Err? ==> x.outcome == SendError(MsgStore, StatusInternalServerError))
      && (env.repo.updateSub(params).Ok? ==>
            Answers(env, x.outcome, OneSub(sub.(id := env.repo.updateSub(params).value))))
      && (x.outcome.SendData? ==>
            && env.repo.updateSub(params).Ok?
            && x.outcome.payload == OneSub(sub.(id := env.repo.updateSub(params).value)))
    ensures x.outcome.SendData? ==> x.outcome.status == StatusOK
    ensures x.outcome.SendError? ==> x.outcome.status == StatusInternalServerError
  {
    match Strconv.ParseInt32(req.pathId)
    case None => Fail([], MsgPath)
    case Some(id) =>
      match DecodeBody(env, req.body)
      case None => Fail([], MsgDecode)
      case Some(sub) =>
        var params := UpdateParams(id, sub, now);
        match env.repo.updateSub(params)
        case Err(_) => Fail([UpdateSubCall(params)], MsgStore)
        case Ok(newId) => Reply(env, [UpdateSubCall(params)], OneSub(sub.(id := newId)))
  }

  /** DELETE /api/sub/{id}: parse the path id, delete that row, answer the id the store returns. */
  function DeleteSub(env: Env, req: Request): (x: Exchange)
    ensures Strconv.ParseInt32(req.pathId).None? ==> x == Exchange([], SendError(MsgPath, StatusInternalServerError))
    ensures Strconv.ParseInt32(req.pathId).Some? ==> var id := Strconv.ParseInt32(req.pathId).value;
      && x.calls == [DeleteSubCall(id)]
      && (env.repo.deleteSub(id).Err? ==> x.outcome == SendError(MsgStore, StatusInternalServerError))
      && (env.repo.deleteSub(id).Ok? ==> Answers(env, x.outcome, SubId(env.repo.deleteSub(id).value)))
      && (x.outcome.SendData? ==> env.repo.deleteSub(id).Ok? && x.outcome.payload == SubId(env.repo.deleteSub(id).value))
    ensures x.outcome.SendData? ==> x.outcome.status == StatusOK
    ensures x.outcome.SendError? ==> x.outcome.status == StatusInternalServerError
  {
    match Strconv.ParseInt32(req.pathId)
    case None => Fail([], MsgPath)
    case Some(id) =>
      match env.repo.deleteSub(id)
      case Err(_) => Fail([DeleteSubCall(id)], MsgStore)
      case Ok(deleted) => Reply(env, [DeleteSubCall(id)], SubId(deleted))
  }

  /**
   * DELETE /api/subs?user_id=: a missing user_id is the one 400 answer of
   * the service and is checked before the id is parsed; a bad one is a
   * 500; otherwise delete that user's rows and answer the deleted ids as
   * the store returns them.
   */
  function DeleteUserSubs(env: Env, req: Request): (x: Exchange)
    ensures req.userId == "" ==> x == Exchange([], SendError(MsgNoUser, StatusBadRequest))
    ensures req.userId != "" && env.parseUuid(req.userId).None? ==>
      x == Exchange([], SendError(MsgQuery, StatusInternalServerError))
    ensures req.userId != "" && env.parseUuid(req.userId).Some? ==>
      var u := env.parseUuid(req.userId).value;
      && x.calls == [DeleteUserSubsCall(u)]
      && (env.repo.deleteUserSubs(u).Err? ==> x.outcome == SendError(MsgStore, StatusInternalServerError))
      && (env.repo.deleteUserSubs(u).Ok? ==> Answers(env, x.outcome, SubIds(env.repo.deleteUserSubs(u).value)))
      && (x.outcome.SendData? ==> env.repo.deleteUserSubs(u).Ok? && x.outcome.payload == SubIds(env.repo.deleteUserSubs(u).value))
    ensures x.outcome.SendData? ==> x.outcome.status == StatusOK
    ensures x.outcome.SendError? && x.outcome.status == StatusBadRequest <==> req.userId == ""
  {
    if req.userId == "" then Exchange([], SendError(MsgNoUser, StatusBadRequest))
    else
      match env.parseUuid(req.userId)
      case None => Fail([], MsgQuery)
      case Some(u) =>
        match env.repo.deleteUserSubs(u)
        case Err(_) => Fail([DeleteUserSubsCall(u)], MsgStore)
        case Ok(ids) => Reply(env, [DeleteUserSubsCall(u)], SubIds(ids))
  }

  /** The handlers by route. GetSub has a handler but no route in the server's table. */
  datatype Route = GetSubsRoute | GetSubRoute | PostSubRoute | PutSubRoute | DeleteSubRoute | DeleteUserSubsRoute

  function Handle(route: Route, env: Env, req: Request, now: Date): Exchange {
    match route
    case GetSubsRoute => GetSubs(env, req)
    case GetSubRoute => GetSub(env, req)
    case PostSubRoute => PostSub(env, req)
    case PutSubRoute => PutSub(env, req, now)
    case DeleteSubRoute => DeleteSub(env, req)
    case DeleteUserSubsRoute => DeleteUserSubs(env, req)
  }

  /** The service as built: GET /api/subs runs the handler as written, the other routes as above. */
  function HandleAsWritten(route: Route, env: Env, req: Request, now: Date): Exchange {
    if route == GetSubsRoute then GetSubsAsWritten(env, req) else Handle(route, env, req, now)
  }

  /**
   * The status discipline of one exchange: a data answer is 200; an error
   * is 400 exactly when DELETE /api/subs lacks user_id, and 500 otherwise;
   * and the store is called at most once.
   */
  predicate Disciplined(route: Route, req: Request, x: Exchange) {
    && (x.outcome.SendData? ==> x.outcome.status == StatusOK)
    && (x.outcome.SendError? ==>
          (x.outcome.status == StatusBadRequest <==> route == DeleteUserSubsRoute && req.userId == "")
          && (x.outcome.status == StatusBadRequest || x.outcome.status == StatusInternalServerError))
    && |x.calls| <= 1
  }

  /**
   * Status discipline across the service, corrected and as written: every
   * data answer is 200; an error is 400 exactly when DELETE /api/subs
   * lacks user_id, and 500 in every other case; and no handler calls the
   * store more than once.
   */
  lemma StatusDiscipline(route: Route, env: Env, req: Request, now: Date)
    ensures Disciplined(route, req, Handle(route, env, req, now))
    ensures Disciplined(route, req, HandleAsWritten(route, env, req, now))
  {
  }

  /** A failure to read the request (path id, user_id or body) answers before the store is touched. */
  lemma ParseFailureSkipsStore(route: Route, env: Env, req: Request, now: Date)
    requires
      || (route in {GetSubRoute, PutSubRoute, DeleteSubRoute} && Strconv.ParseInt32(req.pathId).None?)
      || (route in {GetSubsRoute, DeleteUserSubsRoute} && req.userId != "" && env.parseUuid(req.userId).None?)
      || (route == DeleteUserSubsRoute && req.userId == "")
      || (route in {PostSubRoute, PutSubRoute} && DecodeBody(env, req.body).None?)
    ensures Handle(route, env, req, now).calls == []
    ensures Handle(route, env, req, now).outcome.SendError?
    ensures HandleAsWritten(route, env, req, now).calls == []
    ensures HandleAsWritten(route, env, req, now).outcome.SendError?
  {
  }

  /**
   * A body without an end date (or with `null` for it) is stored with
   * the zero time marked valid: the insert never asks for a NULL end date.
   */
  lemma MissingEndDateStoredAsZero(env: Env, req: Request, raw: RawSub)
    requires env.decodeBody(req.body) == Some(raw)
    requires raw.endDate == None || raw.endDate == Some(JsonDate.Null)
    requires DecodeDate(raw.startDate).Some?
    ensures PostSub(env, req).calls == [AddSubCall(AddParams(DecodeBody(env, req.body).value))]
    ensures PostSub(env, req).calls[0].add.endedAt == NullTime(Zero, true)
  {
    if raw.endDate.Some? {
      JsonDate.NullIsNoOp(Zero, 0, 0);
      assert GoStrings.Run('"', 0) + JsonDate.Null + GoStrings.Run('"', 0) == JsonDate.Null;
    }
  }

  /** An empty listing answers an empty array, even when the store hands back a nil slice. */
  lemma EmptyListingIsEmptyArray(env: Env, req: Request)
    requires req.userId == "" && env.repo.getSubs == Ok(Nil)
    requires env.encodes(SubList(Slice([])))
    ensures GetSubs(env, req).outcome == SendData(SubList(Slice([])), StatusOK)
  {
  }
}
