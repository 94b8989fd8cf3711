/** Positions in the event streams. */
module StreamTokens {

  function Max(a: int, b: int): int {
    if a < b then b else a
  }

  /** A live position in a stream with several writers: a default position, and the writers that are ahead of it. */
  datatype WriterToken = WriterToken(stream: int, instances: map<string, int>) {
    function PositionOf(instance: string): int {
      if instance in instances then instances[instance] else stream
    }

    function Advanced(other: WriterToken): WriterToken {
      WriterToken(
        Max(stream, other.stream),
        map instance | instance in instances.Keys + other.instances.Keys ::
          Max(PositionOf(instance), other.PositionOf(instance)))
    }
  }

  /** Where, and by which writer, a row was persisted. */
  datatype Position = Position(instance: string, stream: int) {
    predicate PersistedAfter(token: WriterToken) {
      token.PositionOf(instance) < stream
    }
  }

  /** Advancing takes, writer by writer, the later of the two positions. */
  lemma AdvancedIsLater(token: WriterToken, other: WriterToken, instance: string)
    ensures token.Advanced(other).PositionOf(instance) == Max(token.PositionOf(instance), other.PositionOf(instance))
  {
  }

  /** A row is after the advanced token exactly when it is after both tokens. */
  lemma AfterAdvancedExactly(token: WriterToken, other: WriterToken, position: Position)
    ensures position.PersistedAfter(token.Advanced(other)) <==> position.PersistedAfter(token) && position.PersistedAfter(other)
  {
    AdvancedIsLater(token, other, position.instance);
  }

  /** A position in all streams. */
  datatype StreamToken = StreamToken(
    room: WriterToken,
    receipt: WriterToken,
    presence: int,
    typing: int,
    accountData: int,
    pushRules: int,
    toDevice: int,
    deviceList: int,
    unPartialStated: int)
  {
    /** Advances one stream, if the new position is after the old one. */
    function Advanced(update: Update): StreamToken {
      match update
      case Room(token) => this.(room := room.Advanced(token))
      case Receipt(token) => this.(receipt := receipt.Advanced(token))
      case Presence(id) => if presence < id then this.(presence := id) else this
      case Typing(id) => if typing < id then this.(typing := id) else this
      case AccountData(id) => if accountData < id then this.(accountData := id) else this
      case PushRules(id) => if pushRules < id then this.(pushRules := id) else this
      case ToDevice(id) => if toDevice < id then this.(toDevice := id) else this
      case DeviceList(id) => if deviceList < id then this.(deviceList := id) else this
      case UnPartialStated(id) => if unPartialStated < id then this.(unPartialStated := id) else this
    }
  }

  /** News in one of the streams. */
  datatype Update =
    | Room(token: WriterToken)
    | Receipt(token: WriterToken)
    | Presence(id: int)
    | Typing(id: int)
    | AccountData(id: int)
    | PushRules(id: int)
    | ToDevice(id: int)
    | DeviceList(id: int)
    | UnPartialStated(id: int)

  /** One token is the other with the position of one stream moved up to a given one. */
  ghost predicate MovedTo(token: StreamToken, update: Update, after: StreamToken) {
    match update
    case Room(to) => after == token.(room := after.room) && LaterOf(token.room, to, after.room)
    case Receipt(to) => after == token.(receipt := after.receipt) && LaterOf(token.receipt, to, after.receipt)
    case Presence(id) => after == token.(presence := Max(token.presence, id))
    case Typing(id) => after == token.(typing := Max(token.typing, id))
    case AccountData(id) => after == token.(accountData := Max(token.accountData, id))
    case PushRules(id) => after == token.(pushRules := Max(token.pushRules, id))
    case ToDevice(id) => after == token.(toDevice := Max(token.toDevice, id))
    case DeviceList(id) => after == token.(deviceList := Max(token.deviceList, id))
    case UnPartialStated(id) => after == token.(unPartialStated := Max(token.unPartialStated, id))
  }

  /** A row is after the later of two tokens exactly when it is after both. */
  ghost predicate LaterOf(token: WriterToken, other: WriterToken, later: WriterToken) {
    forall position: Position :: IsAfter(position, later) <==> IsAfter(position, token) && IsAfter(position, other)
  }

  /** The writer of a row has not come as far as the row: by its own entry, or by the default where it has none. */
  predicate IsAfter(position: Position, token: WriterToken) {
    if position.instance in token.instances then position.stream > token.instances[position.instance]
    else position.stream > token.stream
  }

  lemma PersistedAfterExactly(position: Position, token: WriterToken)
    ensures position.PersistedAfter(token) <==> IsAfter(position, token)
  {
  }

  /** Advancing moves up the stream that the update is about, and no other. */
  lemma AdvancedExactly(token: StreamToken, update: Update)
    ensures MovedTo(token, update, token.Advanced(update))
  {
    match update
    case Room(to) => LaterExactly(token.room, to);
    case Receipt(to) => LaterExactly(token.receipt, to);
    case _ =>
  }

  lemma LaterExactly(token: WriterToken, other: WriterToken)
    ensures LaterOf(token, other, token.Advanced(other))
  {
    forall position: Position
      ensures IsAfter(position, token.Advanced(other)) <==> IsAfter(position, token) && IsAfter(position, other)
    {
      AfterAdvancedExactly(token, other, position);
    }
  }

  /** No stream is further in the first token than in the second. */
  ghost predicate AtOrBefore(token: StreamToken, later: StreamToken) {
    && (forall instance :: token.room.PositionOf(instance) <= later.room.PositionOf(instance))
    && (forall instance :: token.receipt.PositionOf(instance) <= later.receipt.PositionOf(instance))
    && token.presence <= later.presence && token.typing <= later.typing && token.accountData <= later.accountData
    && token.pushRules <= later.pushRules && token.toDevice <= later.toDevice && token.deviceList <= later.deviceList
    && token.unPartialStated <= later.unPartialStated
  }

  /** Advancing never moves a stream backwards. */
  lemma AdvancingGoesForward(token: StreamToken, update: Update)
    ensures AtOrBefore(token, token.Advanced(update))
  {
  }
}
