/** Error values as the controllers and the API build them, and how they are classified.

    The classifying tests look through wrapping layers only: wrapping an error keeps it recognisable,
    but a transient, eventful or ambiguous layer hides what is inside it. */
module Errors {
  import opened Prelude

  datatype Event = Event(reason: string, message: string)

  datatype ApiStatus = NotFound | AlreadyExists | Conflict | Unavailable

  datatype Error =
    | Plain(message: string)
    | Status(status: ApiStatus)                 // an error of the Kubernetes API
    | Wrap(cause: Error, message: string)       // errors.Wrap
    | Transient(inner: Error)                   // TransientError
    | Eventful(inner: Error, event: Event)      // EventfulError
    | Ambiguous(inner: Error)                   // AmbiguousReferenceError

  /** errors.Cause: strips wrapping layers and nothing else. */
  function Cause(e: Error): (c: Error)
    ensures !c.Wrap?
  {
    if e.Wrap? then Cause(e.cause) else e
  }

  predicate IsTransient(e: Error) { Cause(e).Transient? }

  predicate IsAmbiguousReference(e: Error) { Cause(e).Ambiguous? }

  function HasEvent(e: Error): Option<Event> {
    if Cause(e).Eventful? then Some(Cause(e).event) else None
  }

  /** The Kubernetes test does not look through any layer. */
  predicate IsNotFound(e: Error) { e == Status(NotFound) }

  /** TransientError keeps nil. */
  function TransientError(e: Option<Error>): Option<Error> {
    if e.None? then None else Some(Transient(e.value))
  }

  /** errors.Wrap keeps nil. */
  function Wrapped(e: Option<Error>, message: string): Option<Error> {
    if e.None? then None else Some(Wrap(e.value, message))
  }

  /** `e` under any number of wrapping layers, the last message outermost. */
  function WrapAll(e: Error, messages: seq<string>): Error
    decreases |messages|
  {
    if messages == [] then e else WrapAll(Wrap(e, messages[0]), messages[1..])
  }

  lemma {:induction false} WrappingKeepsCause(e: Error, messages: seq<string>)
    ensures Cause(WrapAll(e, messages)) == Cause(e)
    decreases |messages|
  {
    if messages != [] {
      WrappingKeepsCause(Wrap(e, messages[0]), messages[1..]);
    }
  }

  /** Any number of wraps keeps every classification, and makes a bare API status unrecognisable. */
  lemma WrappingKeepsClass(e: Error, messages: seq<string>)
    ensures IsTransient(WrapAll(e, messages)) <==> IsTransient(e)
    ensures IsAmbiguousReference(WrapAll(e, messages)) <==> IsAmbiguousReference(e)
    ensures HasEvent(WrapAll(e, messages)) == HasEvent(e)
    ensures messages != [] ==> !IsNotFound(WrapAll(e, messages))
  {
    WrappingKeepsCause(e, messages);
    if messages != [] { WrapAllIsWrap(e, messages); }
  }

  lemma {:induction false} WrapAllIsWrap(e: Error, messages: seq<string>)
    requires messages != []
    ensures WrapAll(e, messages).Wrap?
    decreases |messages|
  {
    if |messages| > 1 { WrapAllIsWrap(Wrap(e, messages[0]), messages[1..]); }
  }

  /** All the layers of an error, from the outside in. */
  function Layers(e: Error): seq<Error>
    ensures |Layers(e)| > 0
  {
    match e
    case Wrap(c, _) => [e] + Layers(c)
    case Transient(i) => [e] + Layers(i)
    case Eventful(i, _) => [e] + Layers(i)
    case Ambiguous(i) => [e] + Layers(i)
    case _ => [e]
  }

  /** The class of an error is that of its first layer which is not a wrap: inner layers never show. */
  lemma {:induction false} FirstLayerDecides(e: Error)
    ensures exists k :: 0 <= k < |Layers(e)| && Layers(e)[k] == Cause(e) && forall j | 0 <= j < k :: Layers(e)[j].Wrap?
  {
    if e.Wrap? {
      FirstLayerDecides(e.cause);
      var k :| 0 <= k < |Layers(e.cause)| && Layers(e.cause)[k] == Cause(e.cause)
               && forall j | 0 <= j < k :: Layers(e.cause)[j].Wrap?;
      assert Layers(e)[k + 1] == Cause(e);
      assert forall j | 0 <= j < k + 1 :: Layers(e)[j].Wrap?;
    } else {
      assert Layers(e)[0] == Cause(e);
    }
  }

  /** At most one of the three classes applies to an error. */
  lemma ClassesExclude(e: Error)
    ensures !(IsTransient(e) && HasEvent(e).Some?)
    ensures !(IsTransient(e) && IsAmbiguousReference(e))
    ensures !(HasEvent(e).Some? && IsAmbiguousReference(e))
  {
  }
}
