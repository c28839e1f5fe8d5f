/** The shared message vocabulary: four message shapes told apart by their `type` tag, and the
    run-time guards that classify a loosely typed value by that tag alone. */
module Api {
  import opened Wrappers
  import opened JsValues

  const HelloTag: string := "hello"
  const JoinRoomTag: string := "join-room"
  const MemberJoinTag: string := "member-join"
  const MemberLeftTag: string := "member-left"

  /** A classified message. The guards check nothing but the tag, so every other field holds
      whatever the value had there, `Undefined` included. */
  datatype Message =
    | Hello(peerID: Value)
    | JoinRoom(room: Value, members: Value, success: Value)
    | MemberJoin(room: Value, peerID: Value)
    | MemberLeft(room: Value, peerID: Value)

  /** `o.type === tag`: throws for undefined and null, otherwise a strict string comparison. */
  function TypeIs(o: Value, tag: string): (r: Result<bool, Thrown>)
    ensures r.Err? <==> o == Undefined || o == Null
    ensures r == Ok(true) <==> Get(o, "type") == Ok(Str(tag))
  {
    match Get(o, "type")
    case Ok(t) => Ok(t == Str(tag))
    case Err(e) => Err(e)
  }

  /** `o.type === 'hello'`. */
  function IsHelloMessage(o: Value): (r: Result<bool, Thrown>)
    ensures r.Err? <==> o == Undefined || o == Null
    ensures r == Ok(true) <==> Get(o, "type") == Ok(Str(HelloTag))
  {
    TypeIs(o, HelloTag)
  }

  /** `o.type === 'join-room'`. */
  function IsJoinRoomMessage(o: Value): (r: Result<bool, Thrown>)
    ensures r.Err? <==> o == Undefined || o == Null
    ensures r == Ok(true) <==> Get(o, "type") == Ok(Str(JoinRoomTag))
  {
    TypeIs(o, JoinRoomTag)
  }

  /** `o.type === 'member-join'`. */
  function IsMemberJoinMessage(o: Value): (r: Result<bool, Thrown>)
    ensures r.Err? <==> o == Undefined || o == Null
    ensures r == Ok(true) <==> Get(o, "type") == Ok(Str(MemberJoinTag))
  {
    TypeIs(o, MemberJoinTag)
  }

  /** `o.type === 'member-left'`. */
  function IsMemberLeftMessage(o: Value): (r: Result<bool, Thrown>)
    ensures r.Err? <==> o == Undefined || o == Null
    ensures r == Ok(true) <==> Get(o, "type") == Ok(Str(MemberLeftTag))
  {
    TypeIs(o, MemberLeftTag)
  }

  /** A field as the guarded code reads it, once a guard has passed. */
  function Field(o: Value, name: string): Value {
    match Get(o, name)
    case Ok(v) => v
    case Err(_) => Undefined
  }

  /** The single classification entry point: the guards, tried in declaration order. */
  function Decode(o: Value): (r: Result<Option<Message>, Thrown>)
    ensures r.Err? <==> o == Undefined || o == Null
    ensures r == Ok(None) <==>
      IsHelloMessage(o) == Ok(false) && IsJoinRoomMessage(o) == Ok(false) &&
      IsMemberJoinMessage(o) == Ok(false) && IsMemberLeftMessage(o) == Ok(false)
    ensures r.Ok? && r.value.Some? ==> Get(o, "type") == Ok(Str(Tag(r.value.value)))
    ensures IsHelloMessage(o) == Ok(true) ==> r == Ok(Some(Hello(Field(o, "peerID"))))
    ensures IsJoinRoomMessage(o) == Ok(true) ==>
      r == Ok(Some(JoinRoom(Field(o, "room"), Field(o, "members"), Field(o, "success"))))
    ensures IsMemberJoinMessage(o) == Ok(true) ==> r == Ok(Some(MemberJoin(Field(o, "room"), Field(o, "peerID"))))
    ensures IsMemberLeftMessage(o) == Ok(true) ==> r == Ok(Some(MemberLeft(Field(o, "room"), Field(o, "peerID"))))
  {
    if o == Undefined || o == Null then Err(TypeError)
    else if IsHelloMessage(o) == Ok(true) then Ok(Some(Hello(Field(o, "peerID"))))
    else if IsJoinRoomMessage(o) == Ok(true) then
      Ok(Some(JoinRoom(Field(o, "room"), Field(o, "members"), Field(o, "success"))))
    else if IsMemberJoinMessage(o) == Ok(true) then
      Ok(Some(MemberJoin(Field(o, "room"), Field(o, "peerID"))))
    else if IsMemberLeftMessage(o) == Ok(true) then
      Ok(Some(MemberLeft(Field(o, "room"), Field(o, "peerID"))))
    else Ok(None)
  }

  /** The object shape of each message: the tag first, then its fields. */
  function Encode(m: Message): (r: Value)
    ensures r.Obj? && UniqueKeys(r.props)
    ensures Get(r, "type") == Ok(Str(Tag(m)))
  {
    match m
    case Hello(peerID) =>
      Obj([Property("type", Str(HelloTag)), Property("peerID", peerID)])
    case JoinRoom(room, members, success) =>
      Obj([Property("type", Str(JoinRoomTag)), Property("room", room), Property("members", members), Property("success", success)])
    case MemberJoin(room, peerID) =>
      Obj([Property("type", Str(MemberJoinTag)), Property("room", room), Property("peerID", peerID)])
    case MemberLeft(room, peerID) =>
      Obj([Property("type", Str(MemberLeftTag)), Property("room", room), Property("peerID", peerID)])
  }

  /** Classifying an encoded message gives back that message. */
  lemma DecodeEncode(m: Message)
    ensures Decode(Encode(m)) == Ok(Some(m))
  {
    var props := Encode(m).props;
    assert props[0] == Property("type", Str(Tag(m)));
    assert Get(Encode(m), "type") == Ok(Str(Tag(m)));
    match m
    case Hello(peerID) =>
      assert Lookup(props, "peerID") == Some(peerID);
    case JoinRoom(room, members, success) =>
      assert Lookup(props, "room") == Some(room);
      assert Lookup(props[1..], "members") == Some(members);
      assert Lookup(props, "members") == Some(members);
      assert Lookup(props[2..], "success") == Some(success);
      assert Lookup(props[1..], "success") == Some(success);
      assert Lookup(props, "success") == Some(success);
    case MemberJoin(room, peerID) =>
      assert Lookup(props, "room") == Some(room);
      assert Lookup(props[1..], "peerID") == Some(peerID);
    case MemberLeft(room, peerID) =>
      assert Lookup(props, "room") == Some(room);
      assert Lookup(props[1..], "peerID") == Some(peerID);
  }

  /** The tag each kind of message carries. */
  function Tag(m: Message): string {
    match m
    case Hello(_) => HelloTag
    case JoinRoom(_, _, _) => JoinRoomTag
    case MemberJoin(_, _) => MemberJoinTag
    case MemberLeft(_, _) => MemberLeftTag
  }

  /** The four tags are distinct, so no value passes two guards. */
  lemma AtMostOneGuard(o: Value)
    ensures IsHelloMessage(o) == Ok(true) ==>
      IsJoinRoomMessage(o) == Ok(false) && IsMemberJoinMessage(o) == Ok(false) && IsMemberLeftMessage(o) == Ok(false)
    ensures IsJoinRoomMessage(o) == Ok(true) ==>
      IsHelloMessage(o) == Ok(false) && IsMemberJoinMessage(o) == Ok(false) && IsMemberLeftMessage(o) == Ok(false)
    ensures IsMemberJoinMessage(o) == Ok(true) ==>
      IsHelloMessage(o) == Ok(false) && IsJoinRoomMessage(o) == Ok(false) && IsMemberLeftMessage(o) == Ok(false)
    ensures IsMemberLeftMessage(o) == Ok(true) ==>
      IsHelloMessage(o) == Ok(false) && IsJoinRoomMessage(o) == Ok(false) && IsMemberJoinMessage(o) == Ok(false)
  {
  }

  /** The guards look at nothing but `type`: two values with the same tag are classified alike. */
  lemma GuardsSeeOnlyType(o: Value, o': Value)
    requires Get(o, "type") == Get(o', "type")
    ensures IsHelloMessage(o) == IsHelloMessage(o') && IsJoinRoomMessage(o) == IsJoinRoomMessage(o')
    ensures IsMemberJoinMessage(o) == IsMemberJoinMessage(o') && IsMemberLeftMessage(o) == IsMemberLeftMessage(o')
  {
  }

  /** A message object is classified by its tag even when its other fields are missing. */
  lemma TagAloneSuffices()
    ensures IsHelloMessage(Obj([Property("type", Str("hello"))])) == Ok(true)
    ensures Decode(Obj([Property("type", Str("hello"))])) == Ok(Some(Hello(Undefined)))
    ensures IsJoinRoomMessage(Obj([Property("type", Str("join-room"))])) == Ok(true)
    ensures Decode(Obj([Property("type", Str("join-room"))])) == Ok(Some(JoinRoom(Undefined, Undefined, Undefined)))
  {
  }

  /** A defined value whose tag is none of the four passes no guard. */
  lemma UnknownTagPassesNoGuard(o: Value)
    requires o != Undefined && o != Null
    requires forall tag :: tag in {HelloTag, JoinRoomTag, MemberJoinTag, MemberLeftTag} ==> Get(o, "type") != Ok(Str(tag))
    ensures Decode(o) == Ok(None)
  {
    assert Get(o, "type") != Ok(Str(HelloTag));
    assert Get(o, "type") != Ok(Str(JoinRoomTag));
    assert Get(o, "type") != Ok(Str(MemberJoinTag));
    assert Get(o, "type") != Ok(Str(MemberLeftTag));
  }
}
