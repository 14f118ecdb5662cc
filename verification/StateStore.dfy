/** The shared object store, one atomic step per call, and the submission claim made from its create-if-absent. */
module StateStore {
  import opened Wrappers
  import opened StateKeys
  import opened Planner

  /** Which version of the submission boundary a claim was made at. Older claims were made too early. */
  datatype Boundary = NoBoundary | OlderBoundary | PreBrokerRequestV2

  /** What the run code looks at in a stored object. `terminal` says whether its stage ends a live run. */
  datatype Doc = Doc(boundary: Boundary, dryRun: bool, terminal: bool)

  type Objects = map<string, Doc>

  const CLAIM_DOC := Doc(PreBrokerRequestV2, false, false)

  predicate HasEffectiveClaim(claim: Option<Doc>) {
    claim.Some? && claim.value.boundary == PreBrokerRequestV2
  }

  predicate IsDuplicateRun(latest: Option<Doc>) {
    latest.Some? && !latest.value.dryRun && latest.value.terminal
  }

  function Lookup(objects: Objects, key: string): Option<Doc> {
    if key in objects then Some(objects[key]) else None
  }

  /** How a call goes wrong: not at all, before it took effect, or with only its reply lost. */
  datatype Fault = NoFault | FailsBefore | ReplyLost

  /** A create can also land and yet say no: the client repeats it on its own, and meets the object it has made. */
  datatype CreateFault = Direct(fault: Fault) | OwnRetry

  datatype StoreError = WriteFailed | CreateFailed | ReadFailed

  function Created(objects: Objects, key: string, doc: Doc, fault: CreateFault): Objects {
    if fault == Direct(FailsBefore) || key in objects then objects else objects[key := doc]
  }

  function CreateReply(objects: Objects, key: string, fault: CreateFault): Result<bool, StoreError> {
    match fault
    case OwnRetry => Ok(false)
    case Direct(fault) => if fault != NoFault then Err(CreateFailed) else Ok(key !in objects)
  }

  class Store {
    var objects: Objects

    constructor (initial: Objects)
      ensures objects == initial
    {
      objects := initial;
    }

    method ReadJson(key: string, fault: Fault) returns (r: Result<Option<Doc>, StoreError>)
      ensures r == if fault == NoFault then Ok(Lookup(objects, key)) else Err(ReadFailed)
    {
      if fault != NoFault {
        return Err(ReadFailed);
      }
      r := Ok(Lookup(objects, key));
    }

    method WriteJson(key: string, doc: Doc, fault: Fault) returns (r: Result<bool, StoreError>)
      modifies this
      ensures objects == if fault == FailsBefore then old(objects) else old(objects)[key := doc]
      ensures r == if fault == NoFault then Ok(true) else Err(WriteFailed)
    {
      if fault != FailsBefore {
        objects := objects[key := doc];
      }
      r := if fault == NoFault then Ok(true) else Err(WriteFailed);
    }

    /** Create if absent: an object that exists is never replaced. */
    method CreateJson(key: string, doc: Doc, fault: CreateFault) returns (r: Result<bool, StoreError>)
      modifies this
      ensures objects == Created(old(objects), key, doc, fault)
      ensures r == CreateReply(old(objects), key, fault)
      ensures key in old(objects) ==> objects == old(objects)
      ensures r == Ok(true) ==> key !in old(objects) && key in objects && objects[key] == doc
    {
      if fault == Direct(FailsBefore) {
        return Err(CreateFailed);
      }
      var absent := key !in objects;
      if absent {
        objects := objects[key := doc];
      }
      if fault == Direct(ReplyLost) {
        return Err(CreateFailed);
      }
      r := Ok(absent && fault != OwnRetry);
    }
  }

  /** The answer to the first call of the claim callback. */
  function FirstAnswer(persist: bool, objects: Objects, key: string, fault: CreateFault): Admission {
    if !persist then Raises
    else
      match CreateReply(objects, key, fault)
      case Ok(created) => if created then Granted else Denied
      case Err(_) => Raises
  }

  /** The claim callback of one live cycle: it creates the claim once and then remembers that it holds it. */
  class SubmissionClaim {
    const store: Store
    const key: string
    const persist: bool
    const fault: CreateFault
    var acquired: bool

    constructor (store: Store, run: RunId, persist: bool, fault: CreateFault)
      ensures this.store == store && this.key == ClaimKey(run) && this.persist == persist && this.fault == fault
      ensures !acquired
    {
      this.store := store;
      this.key := ClaimKey(run);
      this.persist := persist;
      this.fault := fault;
      this.acquired := false;
    }

    method Acquire() returns (a: Admission)
      modifies this, store
      ensures a == if persist && old(acquired) then Granted
                   else FirstAnswer(persist, old(store.objects), key, fault)
      ensures acquired == (old(acquired) || a == Granted)
      ensures store.objects == if persist && !old(acquired) then Created(old(store.objects), key, CLAIM_DOC, fault)
                               else old(store.objects)
    {
      if !persist {
        return Raises;
      }
      if acquired {
        return Granted;
      }
      var created := store.CreateJson(key, CLAIM_DOC, fault);
      if created.Err? {
        return Raises;
      }
      acquired := created.value;
      a := if acquired then Granted else Denied;
    }
  }
}
