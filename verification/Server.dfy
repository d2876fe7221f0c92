/** services/voyage/adapters/grpcserver: CreateVoyage with its provisional quote, UpdateVoyage. */
module Server {
  import opened Int64
  import opened Wrappers
  import opened Money
  import opened Voyages
  import opened Storage

  datatype Status = BadRequest(why: Invalid) | Missing | Internal

  datatype CreateResponse = CreateResponse(voyage: Voyage, provisionalMinor: int64, pending: bool)

  /** The estimator as the client adapter finds it. */
  datatype Link = Reachable | Unreachable | Broken

  datatype QuoteError = EstimatorUnavailable | Rejected

  /** The synchronous Estimate call: the estimator prices with its own configured rate. */
  function Quote(rate: Money, v: Voyage, link: Link): Result<Money, QuoteError> {
    match link
    case Unreachable => Err(EstimatorUnavailable)
    case Broken => Err(Rejected)
    case Reachable =>
      match PriceOf(v.content, rate)
      case Ok(cost) => Ok(Money(cost.minor, cost.currency))
      case Err(_) => Err(Rejected)
  }

  /** The tables a CreateVoyage call finds once no transaction holds its key; an invalid request does not
      get as far as waiting. */
  function Awaited(db: Db, v: Voyage, rival: Rival): Db {
    if Validate(v).Some? then db else Waited(db, v.id, rival)
  }

  /** The tables after a CreateVoyage call. */
  function AfterCreate(db: Db, v: Voyage, fault: CreateFault): Db {
    if Validate(v).Some? then db else DbRun(db, CreateTrace(db, v, fault))
  }

  /** The tables after an UpdateVoyage call. */
  function AfterUpdate(db: Db, v: Voyage, fault: CallFault, between: seq<DbStep>): Db {
    if Validate(v).Some? then db else Updated(db, v, fault, between)
  }

  /** The reply to CreateVoyage when the row it returns is `row`. */
  function QuotedReply(rate: Money, id: string, row: Row, link: Link): Result<CreateResponse, Status> {
    match Quote(rate, ToVoyage(id, row), link)
    case Ok(quote) => Ok(CreateResponse(ToVoyage(id, row), quote.minor, false))
    case Err(EstimatorUnavailable) => Ok(CreateResponse(ToVoyage(id, row), 0, true))
    case Err(Rejected) => Err(Internal)
  }

  function CreateReply(rate: Money, db: Db, v: Voyage, fault: CreateFault, link: Link): Result<CreateResponse, Status> {
    var after := AfterCreate(db, v, fault);
    if Validate(v).Some? then Err(BadRequest(Validate(v).value))
    else if CreateFails(db, v, fault) || v.id !in after.voyages then Err(Internal)
    else QuotedReply(rate, v.id, after.voyages[v.id], link)
  }

  function UpdateReply(db: Db, v: Voyage, fault: CallFault, between: seq<DbStep>, getFails: bool)
    : Result<Voyage, Status>
  {
    var after := AfterUpdate(db, v, fault, between);
    if Validate(v).Some? then Err(BadRequest(Validate(v).value))
    else if !fault.CallOk? || getFails then Err(Internal)
    else if v.id !in after.voyages then Err(Missing)
    else Ok(ToVoyage(v.id, after.voyages[v.id]))
  }

  // ---- what the caller is told -------------------------------------------------------------------

  /** A request is refused for the first of these that holds. */
  ghost predicate Refused<T>(v: Voyage, r: Result<T, Status>) {
    if v.id == "" then r == Err(BadRequest(MissingClientRequestID))
    else if v.content.origin == "" || v.content.dest == "" then r == Err(BadRequest(MissingPort))
    else v.content.distanceNm < 0 && r == Err(BadRequest(NegativeDistance))
  }

  /** The request is complete: nothing to refuse. */
  predicate Wellformed(v: Voyage) {
    v.id != "" && v.content.origin != "" && v.content.dest != "" && v.content.distanceNm >= 0
  }

  /** What a create is answered, by the rows before and after it. If the repository fails, an internal error;
      otherwise the stored row, be it new or a duplicate's. Without an estimator that is a reply all the same, marked
      pending and without an amount; a broken one, or an unpriceable row, is an internal error. */
  ghost predicate CreateAnswered(rate: Money, rows: map<string, Row>, rows': map<string, Row>, v: Voyage,
                                 fault: CreateFault, link: Link, r: Result<CreateResponse, Status>) {
    if !Wellformed(v) then Refused(v, r) && rows' == rows
    else if || fault.BeginFails? || fault.InsertFails?
            || (v.id in rows && fault.GetFails?)
            || (v.id !in rows && (fault.EncodeFails? || fault.OutboxFails? || fault.CommitFails?
                                  || fault.CommitUnknown?))
    then r == Err(Internal)
    else
      && v.id in rows'
      && rows'[v.id] == (if v.id in rows then rows[v.id] else Row(v.content, 1, None))
      && match link
         case Broken => r == Err(Internal)
         case Unreachable =>
           r.Ok? && IsRow(r.value.voyage, v.id, rows'[v.id]) && r.value.provisionalMinor == 0 && r.value.pending
         case Reachable =>
           if !HasPrice(rate, rows'[v.id].content) then r == Err(Internal)
           else && r.Ok? && IsRow(r.value.voyage, v.id, rows'[v.id])
                && r.value.provisionalMinor == Cost(rate, rows'[v.id].content) && !r.value.pending
  }

  lemma CreateAnswers(rate: Money, db: Db, v: Voyage, fault: CreateFault, link: Link)
    requires v.id !in db.inflight
    ensures CreateAnswered(rate, db.voyages, AfterCreate(db, v, fault).voyages, v, fault, link,
                           CreateReply(rate, db, v, fault, link))
  {
    CreateIsAtomic(db, v, fault);
    hide DbRun, CreateTrace, PriceOf, HasPrice, Cost;
    if v.id in AfterCreate(db, v, fault).voyages {
      PriceExact(rate, AfterCreate(db, v, fault).voyages[v.id].content);
    }
  }

  /** The same for a call that may have had to wait; an invalid request does not get that far. */
  lemma AnswersOnceAwaited(rate: Money, db: Db, v: Voyage, rival: Rival, fault: CreateFault, link: Link)
    ensures var found := Awaited(db, v, rival);
            CreateAnswered(rate, found.voyages, AfterCreate(found, v, fault).voyages, v, fault, link,
                           CreateReply(rate, found, v, fault, link))
  {
    hide CreateReply, DbRun, CreateTrace, Waited;
    if Validate(v).None? {
      hide CreateAnswered;
      CreateAnswers(rate, Awaited(db, v, rival), v, fault, link);
    } else {
      hide AfterCreate;
      RefusedUntouched(rate, db, v, fault, link);
    }
  }

  lemma RefusedUntouched(rate: Money, db: Db, v: Voyage, fault: CreateFault, link: Link)
    requires Validate(v).Some?
    ensures CreateAnswered(rate, db.voyages, AfterCreate(db, v, fault).voyages, v, fault, link,
                           CreateReply(rate, db, v, fault, link))
  {}

  /** What an update is answered, by the rows before and after it: the stored row as it then is, which a request
      that is not strictly newer has left alone. An unknown voyage is missing. */
  ghost predicate UpdateAnswered(rows: map<string, Row>, rows': map<string, Row>, v: Voyage, fault: CallFault,
                                 between: seq<DbStep>, getFails: bool, r: Result<Voyage, Status>) {
    if !Wellformed(v) then Refused(v, r) && rows' == rows
    else if !fault.CallOk? || getFails then r == Err(Internal)
    else
      && (if v.id !in rows' then r == Err(Missing) else r.Ok? && IsRow(r.value, v.id, rows'[v.id]))
      && (between == [] ==>
            if v.id !in rows then rows' == rows
            else if rows[v.id].version < v.version
            then rows' == rows[v.id := Row(v.content, v.version, rows[v.id].estimate)]
            else rows' == rows)
  }

  lemma UpdateAnswers(db: Db, v: Voyage, fault: CallFault, between: seq<DbStep>, getFails: bool)
    ensures UpdateAnswered(db.voyages, AfterUpdate(db, v, fault, between).voyages, v, fault, between, getFails,
                           UpdateReply(db, v, fault, between, getFails))
  {
    if between == [] {
      DbRunNothing(DbNext(db, UpdateVoyage(v)));
    }
    hide DbRun;
  }

  class Server {
    const repo: Repository
    const rate: Money

    constructor (repo: Repository, rate: Money)
      ensures this.repo == repo && this.rate == rate
    {
      this.repo, this.rate := repo, rate;
    }

    method CreateVoyage(id: string, content: Content, rival: Rival, fault: CreateFault, link: Link)
      returns (r: Result<CreateResponse, Status>)
      modifies repo.pg
      ensures var v := Voyage(id, content, 0, 0);
              var db := Awaited(old(repo.pg.Tables()), v, rival);
              && repo.pg.Tables() == AfterCreate(db, v, fault)
              && repo.pg.inflight == db.inflight
              && r == CreateReply(rate, db, v, fault, link)
              && CreateAnswered(rate, db.voyages, repo.pg.voyages, v, fault, link, r)
    {
      hide PriceOf, DbRun, CreateTrace, Waited, CreateAnswered;
      AnswersOnceAwaited(rate, repo.pg.Tables(), Voyage(id, content, 0, 0), rival, fault, link);
      var v := Voyage(id, content, 0, 0);
      var invalid := Validate(v);
      if invalid.Some? {
        return Err(BadRequest(invalid.value));
      }
      var created := repo.Create(v, rival, fault);
      if created.Err? {
        return Err(Internal);
      }
      var resp := CreateResponse(created.value, 0, false);
      var quote := Quote(rate, created.value, link);
      if quote.Err? {
        if quote.error == EstimatorUnavailable {
          return Ok(resp.(pending := true));
        }
        return Err(Internal);
      }
      r := Ok(resp.(provisionalMinor := quote.value.minor));
    }

    method UpdateVoyage(v: Voyage, fault: CallFault, between: seq<DbStep>, getFails: bool)
      returns (r: Result<Voyage, Status>)
      modifies repo.pg
      ensures repo.pg.Tables() == AfterUpdate(old(repo.pg.Tables()), v, fault, between)
      ensures r == UpdateReply(old(repo.pg.Tables()), v, fault, between, getFails)
      ensures UpdateAnswered(old(repo.pg.voyages), repo.pg.voyages, v, fault, between, getFails, r)
    {
      UpdateAnswers(repo.pg.Tables(), v, fault, between, getFails);
      hide UpdateAnswered, Updated;
      var invalid := Validate(v);
      if invalid.Some? {
        return Err(BadRequest(invalid.value));
      }
      var current := repo.Update(v, fault, between, getFails);
      if current.Err? {
        return Err(if current.error == NotFound then Missing else Internal);
      }
      r := Ok(current.value);
    }
  }

  // ---- what the calls amount to ----------------------------------------------------------------

  /** CreateVoyage stores the requested content at version 1 with one unpublished outbox row that
      carries it, or leaves both tables as they were; a duplicate never overwrites. */
  lemma CreateIsAtomic(db: Db, v: Voyage, fault: CreateFault)
    requires v.id !in db.inflight
    ensures var after := AfterCreate(db, v, fault);
            after.inflight == db.inflight
            && if Validate(v).None? && Inserts(db, v, fault)
               then after.voyages == db.voyages[v.id := Row(v.content, 1, None)]
                    && after.outbox == db.outbox[db.nextId := OutboxRow(VoyageCreated(v.id, v.content, 1), false)]
               else after.voyages == db.voyages && after.outbox == db.outbox
  {
    CreateAllOrNothing(db, v, fault);
    hide DbRun, CreateTrace;
  }

  /** With nothing failing underneath, CreateVoyage is refused for an invalid request, and
      otherwise succeeds just when the row it returns can be priced: an unpriceable voyage is stored
      and its creation reported as failed. */
  lemma CreateSucceedsIffPriceable(rate: Money, db: Db, v: Voyage)
    requires v.id !in db.inflight
    ensures CreateReply(rate, db, v, NoFault, Reachable).Ok? <==>
            Validate(v).None? && PriceOf(if v.id in db.voyages then db.voyages[v.id].content else v.content, rate).Ok?
    ensures Validate(v).None? ==> v.id in AfterCreate(db, v, NoFault).voyages
  {
    CreateIsAtomic(db, v, NoFault);
    hide PriceOf, DbRun;
  }

  /** The quote in a reply is the price of the row returned beside it; a degraded reply says so. */
  lemma ReplyQuotesItsRow(rate: Money, db: Db, v: Voyage, fault: CreateFault, link: Link)
    requires CreateReply(rate, db, v, fault, link).Ok?
    ensures var resp := CreateReply(rate, db, v, fault, link).value;
            && (resp.pending <==> link.Unreachable?)
            && (!resp.pending ==> PriceOf(resp.voyage.content, rate).Ok?
                                  && PriceOf(resp.voyage.content, rate).value.minor == resp.provisionalMinor)
            && resp.voyage.id == v.id
  {
    hide PriceOf, DbRun, CreateTrace;
  }
}
