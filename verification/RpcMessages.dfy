/** JSON-RPC 2.0 messages as both sides of a transport read them. */
module RpcMessages {
  import opened Wrappers
  import opened JsonTree

  datatype MethodField = NoMethod | BadMethod | Named(name: seq<char>)

  /** The error member: absent, not an RpcException, or one. */
  datatype ErrorField = NoError | BadError | Error(e: Json)

  /** A message object by the members that are looked at, or something that is no object. */
  datatype Part =
    | Part(id: Option<Json>, called: MethodField, params: Json, result: Option<Json>, error: ErrorField)
    | NotObject

  /** What is received: one part, a batch, or neither an object nor an array. */
  datatype Message = Single(part: Part) | Many(parts: seq<Part>) | Neither

  /** How a promise of the client ends. */
  datatype Outcome = Value(v: Json) | Failed(e: Json) | TimedOut | Cancelled | Broken

  /** Get<size_t>: an integer that is not negative. */
  function IdNumber(part: Part): Option<nat> {
    if part.NotObject? then None
    else
      match part.id
      case Some(UInt(u)) => Some(u)
      case Some(Int(i)) => if i >= 0 then Some(i) else None
      case _ => None
  }

  /** A result wins over an error; an error that cannot be read decides nothing. */
  function Decisive(part: Part): Option<Outcome> {
    if part.NotObject? then None
    else if part.result.Some? then Some(Value(part.result.value))
    else match part.error
         case Error(e) => Some(Failed(e))
         case _ => None
  }

  /** The part answers the request with this id: the id is that number, and its result decides, or, if it
      has none, an error that can be read. */
  predicate Answers(part: Part, id: nat, o: Outcome) {
    && part.Part? && (part.id == Some(UInt(id)) || part.id == Some(Int(id)))
    && match part.result
       case Some(v) => o == Value(v)
       case None => part.error.Error? && o == Failed(part.error.e)
  }

  lemma AnswersIff(part: Part, id: nat, o: Outcome)
    ensures Answers(part, id, o) <==> IdNumber(part) == Some(id) && Decisive(part) == Some(o)
  {}

  function Notification(name: seq<char>, params: Json): Part {
    Part(None, Named(name), params, None, NoError)
  }

  function MethodCall(id: nat, name: seq<char>, params: Json): Part {
    Part(Some(UInt(id)), Named(name), params, None, NoError)
  }

  function ResultPart(id: Json, v: Json): Part { Part(Some(id), NoMethod, Null, Some(v), NoError) }

  function ErrorPart(id: Json, e: Json): Part { Part(Some(id), NoMethod, Null, None, Error(e)) }

  /** A part that the server answers: its id is there and is not null. */
  predicate WantsReply(part: Part) { part.Part? && part.id.Some? && !part.id.value.Null? && part.called.Named? }
}
