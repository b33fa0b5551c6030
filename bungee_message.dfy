/**
 * An outgoing BungeeCord plugin message: a sender, the server name and an
 * action are fixed once, then the action's content is written element by
 * element behind a head that may not run past the content's length.
 */
module BungeeMessage {
  import opened Wrappers

  /** A UUID as its two 64-bit halves. */
  datatype Uuid = Uuid(most: int, least: int)

  /** The Java classes an action lists as its content. */
  datatype DataType =
    | StringType | BooleanType | ByteType | DoubleType | FloatType
    | IntegerType | LongType | ShortType | UuidType | ActionType

  /** A `BungeeAction`: its name and the types it carries, in order. */
  datatype Action = Action(name: string, content: seq<DataType>)

  /** An element of the outgoing queue (Java's boxed value). */
  datatype Element =
    | UuidElem(uuid: Uuid)
    | StringElem(s: string)
    | BoolElem(b: bool)
    | ByteElem(i: int)
    | IntElem(i: int)
    | LongElem(i: int)
    | ShortElem(i: int)
    | ActionElem(action: Action)

  /** One call on the `ByteArrayDataOutput`. */
  datatype Written =
    | WriteUTF(s: string)
    | WriteBoolean(b: bool)
    | WriteByte(i: int)
    | WriteInt(i: int)
    | WriteLong(i: int)
    | WriteShort(i: int)

  datatype Error =
    | MalformedUuid(raw: string)
    | ServerNameAlreadySet
    | ServerNameNull
    | UnknownAction(actionName: string)
    | ActionAlreadySet
    | ServerNameNotSet
    | ActionNotSet
    | HeadOutOfBounds(actionName: string, max: nat)
    | NullObject
    | UnsupportedWrite(element: Element)

  /** `compileData`'s dispatch: the output call for an element, `None` for a type it does not list. */
  function EncodeAsWritten(e: Element): (r: Option<Written>)
    ensures r.None? <==> e.UuidElem? || e.ActionElem?
  {
    match e
    case StringElem(s) => Some(WriteUTF(s))
    case BoolElem(b) => Some(WriteBoolean(b))
    case ByteElem(i) => Some(WriteByte(i))
    case IntElem(i) => Some(WriteInt(i))
    case LongElem(i) => Some(WriteLong(i))
    case ShortElem(i) => Some(WriteShort(i))
    case UuidElem(_) => None
    case ActionElem(_) => None
  }

  /** `compileData` as it stands: the elements in queue order; the first one it cannot write fails it. */
  function CompileAsWritten(queue: seq<Element>): (r: Result<seq<Written>, Error>)
    ensures r.Ok? <==> forall i :: 0 <= i < |queue| ==> EncodeAsWritten(queue[i]).Some?
    ensures r.Ok? ==> |r.value| == |queue|
    ensures r.Ok? ==> forall i :: 0 <= i < |queue| ==> Some(r.value[i]) == EncodeAsWritten(queue[i])
  {
    if queue == [] then Ok([])
    else
      match EncodeAsWritten(queue[0])
      case None => Err(UnsupportedWrite(queue[0]))
      case Some(w) =>
        match CompileAsWritten(queue[1..])
        case Err(e) => Err(e)
        case Ok(rest) =>
          assert forall i :: 1 <= i < |queue| ==> queue[i] == queue[1..][i - 1];
          Ok([w] + rest)
  }

  /**
   * The dispatch the message layout calls for: the sender UUID in its text
   * form and the action by its name, as strings; everything else as
   * `compileData` writes it.
   */
  function Encode(e: Element, uuidText: Uuid -> string): (r: Written)
    ensures EncodeAsWritten(e).Some? ==> r == EncodeAsWritten(e).value
  {
    match e
    case UuidElem(u) => WriteUTF(uuidText(u))
    case ActionElem(a) => WriteUTF(a.name)
    case _ => EncodeAsWritten(e).value
  }

  /** The type an element is read back as. */
  function KindOf(e: Element): DataType {
    match e
    case UuidElem(_) => UuidType
    case StringElem(_) => StringType
    case BoolElem(_) => BooleanType
    case ByteElem(_) => ByteType
    case IntElem(_) => IntegerType
    case LongElem(_) => LongType
    case ShortElem(_) => ShortType
    case ActionElem(_) => ActionType
  }

  /**
   * The receiving side: an output call read back as the given type, the
   * UUID parsed from its text and the action looked up by its name.
   */
  function Decode(w: Written, t: DataType, parseUuid: string -> Option<Uuid>,
                  actionByName: string -> Option<Action>): Option<Element>
  {
    match (w, t)
    case (WriteUTF(s), StringType) => Some(StringElem(s))
    case (WriteUTF(s), UuidType) => (match parseUuid(s) case Some(u) => Some(UuidElem(u)) case None => None)
    case (WriteUTF(s), ActionType) => (match actionByName(s) case Some(a) => Some(ActionElem(a)) case None => None)
    case (WriteBoolean(b), BooleanType) => Some(BoolElem(b))
    case (WriteByte(i), ByteType) => Some(ByteElem(i))
    case (WriteInt(i), IntegerType) => Some(IntElem(i))
    case (WriteLong(i), LongType) => Some(LongElem(i))
    case (WriteShort(i), ShortType) => Some(ShortElem(i))
    case _ => None
  }

  /**
   * Every element the corrected dispatch writes is read back as itself,
   * provided UUID text parses back and the action's name finds the action.
   */
  lemma EncodeDecode(e: Element, uuidText: Uuid -> string, parseUuid: string -> Option<Uuid>,
                     actionByName: string -> Option<Action>)
    requires e.UuidElem? ==> parseUuid(uuidText(e.uuid)) == Some(e.uuid)
    requires e.ActionElem? ==> actionByName(e.action.name) == Some(e.action)
    ensures Decode(Encode(e, uuidText), KindOf(e), parseUuid, actionByName) == Some(e)
  {
    match e
    case UuidElem(u) =>
    case StringElem(s) =>
    case BoolElem(b) =>
    case ByteElem(i) =>
    case IntElem(i) =>
    case LongElem(i) =>
    case ShortElem(i) =>
    case ActionElem(a) =>
  }

  /** How many of `messages` `writeString` gets through: it stops at a null one or when the head is full. */
  function Accepted(messages: seq<Option<string>>, room: nat): (k: nat)
    ensures k <= |messages| && k <= room
    ensures forall i :: 0 <= i < k ==> messages[i].Some?
    ensures k < |messages| ==> k == room || messages[k].None?
  {
    if messages == [] || room == 0 || messages[0].None? then 0
    else 1 + Accepted(messages[1..], room - 1)
  }

  /** The string elements of the first `k` messages. */
  function Strings(messages: seq<Option<string>>, k: nat): (r: seq<Element>)
    requires k <= |messages| && forall i :: 0 <= i < k ==> messages[i].Some?
    ensures |r| == k && forall i :: 0 <= i < k ==> r[i] == StringElem(messages[i].value)
  {
    if k == 0 then [] else Strings(messages, k - 1) + [StringElem(messages[k - 1].value)]
  }

  class OutgoingMessage {
    var senderUid: Option<Uuid>
    var serverName: Option<string>
    var action: Option<Action>
    var actionHead: int
    var queue: seq<Element>

    /** `0 <= actionHead <= action.getContent().length`, and no head without an action. */
    ghost predicate HeadInBounds()
      reads this
    {
      && 0 <= actionHead
      && (action.Some? ==> actionHead <= |action.value.content|)
      && (action.None? ==> actionHead == 0)
    }

    /** A constructed message: the header is queued and the queue holds three plus the head elements. */
    ghost predicate Valid()
      reads this
    {
      && HeadInBounds()
      && senderUid.Some? && serverName.Some? && action.Some?
      && |queue| == 3 + actionHead
      && queue[..3] == [UuidElem(senderUid.value), StringElem(serverName.value), ActionElem(action.value)]
    }

    /** The state the abstract `Message` starts in: nothing set, the head at 0. */
    constructor Blank()
      ensures senderUid.None? && serverName.None? && action.None? && actionHead == 0 && queue == []
      ensures HeadInBounds()
    {
      senderUid := None;
      serverName := None;
      action := None;
      actionHead := 0;
      queue := [];
    }

    /** `setSenderUid`: null leaves the uid as it is; text that is not a UUID fails. */
    method SetSenderUid(raw: Option<string>, fromString: string -> Option<Uuid>) returns (r: Result<(), Error>)
      modifies this
      ensures raw.None? ==> r.Ok? && senderUid == old(senderUid)
      ensures raw.Some? && fromString(raw.value).None? ==>
        r == Err(MalformedUuid(raw.value)) && senderUid == old(senderUid)
      ensures raw.Some? && fromString(raw.value).Some? ==> r.Ok? && senderUid == fromString(raw.value)
      ensures serverName == old(serverName) && action == old(action)
      ensures actionHead == old(actionHead) && queue == old(queue)
    {
      if raw.Some? {
        var parsed := fromString(raw.value);
        if parsed.None? {
          return Err(MalformedUuid(raw.value));
        }
        senderUid := parsed;
      }
      return Ok(());
    }

    /** `setServerName`: once only, and never to null. */
    method SetServerName(name: Option<string>) returns (r: Result<(), Error>)
      modifies this
      ensures old(serverName).Some? ==> r == Err(ServerNameAlreadySet)
      ensures old(serverName).None? && name.None? ==> r == Err(ServerNameNull)
      ensures r.Ok? <==> old(serverName).None? && name.Some?
      ensures serverName == if r.Ok? then name else old(serverName)
      ensures senderUid == old(senderUid) && action == old(action)
      ensures actionHead == old(actionHead) && queue == old(queue)
    {
      if serverName.Some? {
        return Err(ServerNameAlreadySet);
      }
      if name.None? {
        return Err(ServerNameNull);
      }
      serverName := name;
      return Ok(());
    }

    /** `setAction(BungeeAction)`: once only. */
    method SetAction(a: Action) returns (r: Result<(), Error>)
      requires HeadInBounds()
      modifies this
      ensures HeadInBounds()
      ensures r.Ok? <==> old(action).None?
      ensures r.Err? ==> r == Err(ActionAlreadySet)
      ensures action == if r.Ok? then Some(a) else old(action)
      ensures senderUid == old(senderUid) && serverName == old(serverName)
      ensures actionHead == old(actionHead) && queue == old(queue)
    {
      if action.Some? {
        return Err(ActionAlreadySet);
      }
      action := Some(a);
      return Ok(());
    }

    /** `setAction(String)`: the action is looked up by name first; an unknown name fails. */
    method SetActionByName(actionName: string, byName: string -> Option<Action>) returns (r: Result<(), Error>)
      requires HeadInBounds()
      modifies this
      ensures HeadInBounds()
      ensures byName(actionName).None? ==> r == Err(UnknownAction(actionName)) && action == old(action)
      ensures byName(actionName).Some? ==>
        (r.Ok? <==> old(action).None?) && action == if r.Ok? then byName(actionName) else old(action)
      ensures senderUid == old(senderUid) && serverName == old(serverName)
      ensures actionHead == old(actionHead) && queue == old(queue)
    {
      var found := byName(actionName);
      if found.None? {
        return Err(UnknownAction(actionName));
      }
      r := SetAction(found.value);
    }

    /**
     * `moveHead`: the server name and the action must be set and the head
     * below the content's length; then it advances by exactly one.  The
     * type being written is not compared with the content.
     */
    method MoveHead() returns (r: Result<(), Error>)
      requires HeadInBounds()
      modifies this
      ensures HeadInBounds()
      ensures old(serverName).None? ==> r == Err(ServerNameNotSet)
      ensures old(serverName).Some? && old(action).None? ==> r == Err(ActionNotSet)
      ensures r.Ok? <==> (old(serverName).Some? && old(action).Some?
                          && old(actionHead) < |old(action).value.content|)
      ensures actionHead == if r.Ok? then old(actionHead) + 1 else old(actionHead)
      ensures senderUid == old(senderUid) && serverName == old(serverName) && action == old(action)
      ensures queue == old(queue)
    {
      if serverName.None? {
        return Err(ServerNameNotSet);
      }
      if action.None? {
        return Err(ActionNotSet);
      }
      var content := action.value.content;
      if actionHead >= |content| {
        return Err(HeadOutOfBounds(action.value.name, |content|));
      }
      actionHead := actionHead + 1;
      return Ok(());
    }

    /**
     * The outgoing constructor: the sender, the server name and the action
     * are set, and those three are queued ahead of any content.
     */
    static method Create(senderUid: Uuid, serverName: Option<string>, action: Action)
      returns (r: Result<OutgoingMessage, Error>)
      ensures serverName.None? <==> r.Err?
      ensures r.Err? ==> r == Err(ServerNameNull)
      ensures r.Ok? ==> fresh(r.value) && r.value.Valid()
      ensures r.Ok? ==> r.value.senderUid == Some(senderUid) && r.value.serverName == serverName
      ensures r.Ok? ==> r.value.action == Some(action) && r.value.actionHead == 0
      ensures r.Ok? ==> r.value.queue == [UuidElem(senderUid), StringElem(serverName.value), ActionElem(action)]
    {
      var m := new OutgoingMessage.Blank();
      m.senderUid := Some(senderUid);
      var named := m.SetServerName(serverName);
      if named.Err? {
        return Err(named.error);
      }
      var acted := m.SetAction(action);
      assert acted.Ok?;
      m.queue := [UuidElem(senderUid), StringElem(serverName.value), ActionElem(action)];
      return Ok(m);
    }

    /** The content slots still free. */
    function Room(): (n: nat)
      requires Valid()
      reads this
      ensures actionHead + n == |action.value.content|
    {
      |action.value.content| - actionHead
    }

    /**
     * `write`: a null object is refused before anything changes; otherwise
     * the head moves and the object is queued, or the head is full and
     * nothing changes.
     */
    method Write(obj: Option<Element>) returns (r: Result<(), Error>)
      requires Valid()
      modifies this
      ensures Valid()
      ensures obj.None? ==> r == Err(NullObject)
      ensures r.Ok? <==> obj.Some? && old(Room()) > 0
      ensures r.Ok? ==> queue == old(queue) + [obj.value] && actionHead == old(actionHead) + 1
      ensures r.Err? ==> queue == old(queue) && actionHead == old(actionHead)
      ensures senderUid == old(senderUid) && serverName == old(serverName) && action == old(action)
    {
      if obj.None? {
        return Err(NullObject);
      }
      r := MoveHead();
      if r.Ok? {
        queue := queue + [obj.value];
      }
    }

    /** `writeString`: the strings in argument order, stopping at the first that fails. */
    method WriteString(messages: seq<Option<string>>) returns (r: Result<(), Error>)
      requires Valid()
      modifies this
      ensures Valid()
      ensures var k := Accepted(messages, old(Room()));
        queue == old(queue) + Strings(messages, k) && actionHead == old(actionHead) + k
      ensures r.Ok? <==> Accepted(messages, old(Room())) == |messages|
      ensures senderUid == old(senderUid) && serverName == old(serverName) && action == old(action)
    {
      ghost var room := Room();
      var i := 0;
      while i < |messages|
        invariant 0 <= i <= Accepted(messages, room)
        invariant Valid()
        invariant queue == old(queue) + Strings(messages, i) && actionHead == old(actionHead) + i
        invariant Room() == room - i
        invariant senderUid == old(senderUid) && serverName == old(serverName) && action == old(action)
      {
        AcceptedStep(messages, room, i);
        var w := Write(if messages[i].Some? then Some(StringElem(messages[i].value)) else None);
        if w.Err? {
          return w;
        }
        i := i + 1;
      }
      return Ok(());
    }

    /** `writeBoolean`. */
    method WriteBool(b: bool) returns (r: Result<(), Error>)
      requires Valid()
      modifies this
      ensures Valid()
      ensures r.Ok? <==> old(Room()) > 0
      ensures r.Ok? ==> queue == old(queue) + [BoolElem(b)] && actionHead == old(actionHead) + 1
      ensures r.Err? ==> queue == old(queue) && actionHead == old(actionHead)
    {
      r := Write(Some(BoolElem(b)));
    }

    /** `writeInt`. */
    method WriteInteger(i: int) returns (r: Result<(), Error>)
      requires Valid()
      modifies this
      ensures Valid()
      ensures r.Ok? <==> old(Room()) > 0
      ensures r.Ok? ==> queue == old(queue) + [IntElem(i)] && actionHead == old(actionHead) + 1
      ensures r.Err? ==> queue == old(queue) && actionHead == old(actionHead)
    {
      r := Write(Some(IntElem(i)));
    }

    /** `writeUUID`: a null UUID is refused. */
    method WriteUuid(u: Option<Uuid>) returns (r: Result<(), Error>)
      requires Valid()
      modifies this
      ensures Valid()
      ensures r.Ok? <==> u.Some? && old(Room()) > 0
      ensures r.Ok? ==> queue == old(queue) + [UuidElem(u.value)] && actionHead == old(actionHead) + 1
      ensures r.Err? ==> queue == old(queue) && actionHead == old(actionHead)
    {
      r := Write(if u.Some? then Some(UuidElem(u.value)) else None);
    }

    /** `compileData`, with the corrected dispatch: every queued element is written, in queue order. */
    method CompileData(uuidText: Uuid -> string) returns (out: seq<Written>)
      requires Valid()
      ensures |out| == |queue|
      ensures forall i :: 0 <= i < |queue| ==> out[i] == Encode(queue[i], uuidText)
      ensures out[..3] == [WriteUTF(uuidText(senderUid.value)), WriteUTF(serverName.value), WriteUTF(action.value.name)]
    {
      out := [];
      for i := 0 to |queue|
        invariant |out| == i
        invariant forall j :: 0 <= j < i ==> out[j] == Encode(queue[j], uuidText)
      {
        out := out + [Encode(queue[i], uuidText)];
      }
      assert queue[0] == UuidElem(senderUid.value) && queue[1] == StringElem(serverName.value)
        && queue[2] == ActionElem(action.value);
    }
  }

  /** One more string is accepted exactly when there is room and it is not null. */
  lemma {:induction false} AcceptedStep(messages: seq<Option<string>>, room: nat, i: nat)
    requires i < |messages| && i <= Accepted(messages, room)
    ensures i < Accepted(messages, room) <==> i < room && messages[i].Some?
  {
    if i > 0 {
      AcceptedStep(messages[1..], room - 1, i - 1);
    }
  }

  /**
   * As written, `compileData` fails on every constructed message: the first
   * queued element is the sender's UUID, which its dispatch does not list.
   */
  lemma CompileAsWrittenFails(m: OutgoingMessage)
    requires m.Valid()
    ensures CompileAsWritten(m.queue).Err?
  {
    assert m.queue[0] == UuidElem(m.senderUid.value);
  }

  /**
   * With the corrected dispatch every element of a message's queue reads
   * back as itself, given UUID text that parses back and an action lookup
   * that finds the message's action by name.
   */
  lemma CompiledRoundTrip(queue: seq<Element>, out: seq<Written>, uuidText: Uuid -> string,
                          parseUuid: string -> Option<Uuid>, actionByName: string -> Option<Action>)
    requires |out| == |queue| && forall i :: 0 <= i < |queue| ==> out[i] == Encode(queue[i], uuidText)
    requires forall u :: parseUuid(uuidText(u)) == Some(u)
    requires forall i :: 0 <= i < |queue| && queue[i].ActionElem? ==>
      actionByName(queue[i].action.name) == Some(queue[i].action)
    ensures forall i :: 0 <= i < |queue| ==>
      Decode(out[i], KindOf(queue[i]), parseUuid, actionByName) == Some(queue[i])
  {
    forall i | 0 <= i < |queue|
      ensures Decode(out[i], KindOf(queue[i]), parseUuid, actionByName) == Some(queue[i])
    {
      EncodeDecode(queue[i], uuidText, parseUuid, actionByName);
    }
  }
}
