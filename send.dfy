/** The `send` service: fetching ingested items to a desk, moving archived
    items, and the single pending "send to" request that the destination
    picker resolves. Server responses are inputs. */
module Send {
  import opened Common

  /** The destination chosen in the picker. */
  datatype SendConfig = SendConfig(desk: Field<string>, stage: Field<string>, macro: Field<string>, open: bool)

  /** The body of a fetch request, or the `task` of a move request. */
  datatype TaskData = TaskData(desk: Field<string>, stage: Option<string>, macro: Option<string>)

  /** The request `sendOneAs` makes, if any. */
  datatype Request = FetchRequest(data: TaskData) | MoveRequest(task: TaskData) | NoRequest

  /** What the server sent back for an item. */
  datatype ArchiveResult = ArchiveResult(taskId: Field<string>, created: Field<string>)

  /** The outcome of a request: the saved item, or a failure whose
      `data._message` may be missing. */
  datatype Outcome = Saved(result: ArchiveResult) | Failed(message: Field<string>)

  /** The fields of an item the service writes. */
  datatype ItemState = ItemState(
    taskId: Field<string>,
    archived: Field<string>,
    error: Option<Field<string>>,
    actioning: Option<bool>)

  class Item {
    const kind: string
    const lockUser: Field<string>
    var taskId: Field<string>
    var archived: Field<string>
    /** `item.error`: the failed response, by its message. */
    var error: Option<Field<string>>
    /** `item.actioning.archive`, when the item has an `actioning` object. */
    var actioning: Option<bool>

    constructor (kind: string, lockUser: Field<string>, actioning: Option<bool>)
      ensures this.kind == kind && this.lockUser == lockUser
      ensures State() == ItemState(Absent, Absent, None, actioning)
    {
      this.kind := kind;
      this.lockUser := lockUser;
      taskId := Absent;
      archived := Absent;
      error := None;
      this.actioning := actioning;
    }

    function State(): ItemState
      reads this
    {
      ItemState(taskId, archived, error, actioning)
    }
  }

  /** `getData(config)`: the desk as given, the stage and the macro only
      when they are set. */
  function GetData(config: SendConfig): (r: TaskData)
    ensures r.desk == config.desk
    ensures r.stage.Some? <==> Truthy(config.stage)
    ensures r.stage.Some? ==> r.stage.value == config.stage.value
    ensures r.macro.Some? <==> Truthy(config.macro)
    ensures r.macro.Some? ==> r.macro.value == config.macro.value
  {
    TaskData(config.desk,
             if Truthy(config.stage) then Some(config.stage.value) else None,
             if Truthy(config.macro) then Some(config.macro.value) else None)
  }

  /** The three-way branch of `sendOneAs`: ingested items are fetched
      whoever locks them; other items are moved only when nobody locks
      them; every request carries the same data. */
  function Dispatch(kind: string, lockUser: Field<string>, data: TaskData): (r: Request)
    ensures r.FetchRequest? <==> kind == "ingest"
    ensures r.MoveRequest? <==> kind != "ingest" && !Truthy(lockUser)
    ensures r.NoRequest? <==> kind != "ingest" && Truthy(lockUser)
    ensures r == FetchRequest(data) || r == MoveRequest(data) || r == NoRequest
  {
    if kind == "ingest" then FetchRequest(data)
    else if !Truthy(lockUser) then MoveRequest(data)
    else NoRequest
  }

  /** The message shown when a fetch fails: the server's message, when there
      is one, follows the fixed text and can be read back from it. */
  function FetchErrorMessage(message: Field<string>): (r: string)
    ensures |r| >= 24 && r[..24] == "Failed to fetch the item"
    ensures message.Absent? <==> |r| == 24
    ensures message.Present? ==> |r| >= 26 && r[24..26] == ": " && r[26..] == message.value
  {
    "Failed to fetch the item" + match message
      case Absent => ""
      case Null => ": null"
      case Present(m) => ": " + m
  }

  /** An item after `sendOne`: the task id and archive time on success, the
      response on failure; the archiving flag is cleared either way. */
  function AfterSendOne(s: ItemState, outcome: Outcome): (r: ItemState)
    ensures r.actioning == if s.actioning.Some? then Some(false) else None
    ensures outcome.Saved? ==> r.taskId == outcome.result.taskId && r.archived == outcome.result.created && r.error == s.error
    ensures outcome.Failed? ==> r.taskId == s.taskId && r.archived == s.archived && r.error == Some(outcome.message)
  {
    var s' := match outcome
      case Saved(res) => s.(taskId := res.taskId, archived := res.created)
      case Failed(m) => s.(error := Some(m));
    s'.(actioning := if s.actioning.Some? then Some(false) else None)
  }

  /** An item after `sendOneAs`: only a successful fetch records anything. */
  function AfterSendOneAs(s: ItemState, kind: string, outcome: Outcome): ItemState
  {
    if kind == "ingest" && outcome.Saved? then s.(archived := outcome.result.created) else s
  }

  /** Moving or leaving an item alone never touches it; a fetch records the
      archive time and nothing else. */
  lemma SendOneAsTouchesOnlyArchived(s: ItemState, kind: string, outcome: Outcome)
    ensures AfterSendOneAs(s, kind, outcome).(archived := s.archived) == s
    ensures kind != "ingest" ==> AfterSendOneAs(s, kind, outcome) == s
  {
  }

  /** `sendOne(item)` to the user's current desk. */
  method SendOne(item: Item, currentDesk: Field<string>, outcome: Outcome) returns (request: Request, notice: Option<string>)
    modifies item
    ensures request == FetchRequest(TaskData(currentDesk, None, None))
    ensures item.State() == AfterSendOne(old(item.State()), outcome)
    ensures notice == if outcome.Failed? then Some(FetchErrorMessage(outcome.message)) else None
  {
    request := FetchRequest(TaskData(currentDesk, None, None));
    notice := None;
    match outcome {
      case Saved(res) =>
        item.taskId := res.taskId;
        item.archived := res.created;
      case Failed(m) =>
        notice := Some(FetchErrorMessage(m));
        item.error := Some(m);
    }
    if item.actioning.Some? {
      item.actioning := Some(false);
    }
  }

  /** `sendAll(items)`: `sendOne` for each item, each with its own outcome. */
  method SendAll(items: seq<Item>, currentDesk: Field<string>, outcomes: seq<Outcome>)
    requires |outcomes| == |items|
    requires forall i, j :: 0 <= i < j < |items| ==> items[i] != items[j]
    modifies set i | 0 <= i < |items| :: items[i]
    ensures forall i :: 0 <= i < |items| ==> items[i].State() == AfterSendOne(old(items[i].State()), outcomes[i])
  {
    var i := 0;
    while i < |items|
      invariant 0 <= i <= |items|
      invariant forall j :: 0 <= j < i ==> items[j].State() == AfterSendOne(old(items[j].State()), outcomes[j])
      invariant forall j :: i <= j < |items| ==> items[j].State() == old(items[j].State())
    {
      var _, _ := SendOne(items[i], currentDesk, outcomes[i]);
      i := i + 1;
    }
  }

  /** `sendOneAs(item, config)`. */
  method SendOneAs(item: Item, config: SendConfig, outcome: Outcome) returns (request: Request)
    modifies item
    ensures request == Dispatch(item.kind, item.lockUser, GetData(config))
    ensures item.State() == AfterSendOneAs(old(item.State()), item.kind, outcome)
  {
    var data := GetData(config);
    if item.kind == "ingest" {
      request := FetchRequest(data);
      if outcome.Saved? {
        item.archived := outcome.result.created;
      }
    } else if !Truthy(item.lockUser) {
      request := MoveRequest(data);
    } else {
      request := NoRequest;
    }
  }

  /** A pending `sendAllAs` request: the items waiting for a destination. */
  datatype Pending = Pending(id: nat, items: seq<Item>)

  class SendService {
    /** `vm.config`: the pending request, if any. */
    var config: Option<Pending>
    /** Tells pending requests apart. */
    var nextId: nat

    constructor ()
      ensures config == None
    {
      config := None;
      nextId := 0;
    }

    /** `sendAllAs(items)`: a new pending request takes the slot. */
    method SendAllAs(items: seq<Item>) returns (pending: Pending)
      modifies this
      ensures pending == Pending(old(nextId), items) && config == Some(pending)
      ensures nextId == old(nextId) + 1
    {
      pending := Pending(nextId, items);
      config := Some(pending);
      nextId := nextId + 1;
    }

    /** `getConfig()`. */
    method GetConfig() returns (c: Option<Pending>)
      ensures c == config
    {
      c := config;
    }

    /** The picker resolves a pending request with a destination: the slot
        is emptied and every item of the request is sent with it. */
    method Resolve(pending: Pending, c: SendConfig, outcomes: seq<Outcome>) returns (requests: seq<Request>)
      requires |outcomes| == |pending.items|
      requires forall i, j :: 0 <= i < j < |pending.items| ==> pending.items[i] != pending.items[j]
      modifies this, set i | 0 <= i < |pending.items| :: pending.items[i]
      ensures config == None && nextId == old(nextId)
      ensures |requests| == |pending.items|
      ensures forall i :: 0 <= i < |pending.items| ==>
                requests[i] == Dispatch(pending.items[i].kind, pending.items[i].lockUser, GetData(c))
      ensures forall i :: 0 <= i < |pending.items| ==>
                pending.items[i].State() == AfterSendOneAs(old(pending.items[i].State()), pending.items[i].kind, outcomes[i])
    {
      config := None;
      var items := pending.items;
      requests := [];
      var i := 0;
      while i < |items|
        invariant 0 <= i <= |items| && |requests| == i
        invariant config == None && nextId == old(nextId)
        invariant forall j :: 0 <= j < i ==> requests[j] == Dispatch(items[j].kind, items[j].lockUser, GetData(c))
        invariant forall j :: 0 <= j < i ==> items[j].State() == AfterSendOneAs(old(items[j].State()), items[j].kind, outcomes[j])
        invariant forall j :: i <= j < |items| ==> items[j].State() == old(items[j].State())
      {
        var r := SendOneAs(items[i], c, outcomes[i]);
        requests := requests + [r];
        i := i + 1;
      }
    }
  }
}
