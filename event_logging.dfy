/** carbon-impl's subscriber exception handler: an exception thrown by an
    event subscriber is described and handed to the exception reporter. */
module EventLogging {
  import opened Lang
  import Services

  /** Guava's SubscriberExceptionContext: the subscriber method's name and
      parameter types, and the text of the subscriber and of the event. */
  datatype SubscriberContext = SubscriberContext(
    methodName: string, parameterTypes: seq<ClassRef>, subscriber: string, event: string)

  /** message(context): only the first parameter type is named, so a method
      without parameters fails at index 0. */
  function Message(context: SubscriberContext): (r: Result<string>)
    ensures r.Thrown? <==> |context.parameterTypes| == 0
    ensures r.Thrown? ==> r.error == ArrayIndexOutOfBounds(0)
  {
    if |context.parameterTypes| == 0 then Thrown(ArrayIndexOutOfBounds(0))
    else
      Ok("Exception thrown by subscriber method "
         + context.methodName + "(" + context.parameterTypes[0].name + ")"
         + " on subscriber " + context.subscriber
         + " when dispatching event: " + context.event)
  }

  /** The message names the method, its first parameter type, the subscriber
      and the event, in that order and nothing else: contexts that agree on
      those give the same message, whatever further parameters they have. */
  lemma MessageDependsOnFirstParameter(a: SubscriberContext, b: SubscriberContext)
    requires |a.parameterTypes| > 0 && |b.parameterTypes| > 0
    requires a.methodName == b.methodName && a.parameterTypes[0] == b.parameterTypes[0]
    requires a.subscriber == b.subscriber && a.event == b.event
    ensures Message(a) == Message(b)
  {
  }

  /** The message starts with the fixed preamble followed by the method call. */
  lemma MessageStartsWithMethod(context: SubscriberContext)
    requires |context.parameterTypes| > 0
    ensures var m := Message(context).value;
            var head := "Exception thrown by subscriber method " + context.methodName + "(";
            |head| <= |m| && m[..|head|] == head
  {
    var m := Message(context).value;
    var head := "Exception thrown by subscriber method " + context.methodName + "(";
    var rest := context.parameterTypes[0].name + ")" + " on subscriber " + context.subscriber
                + " when dispatching event: " + context.event;
    assert m == head + rest;
    assert (head + rest)[..|head|] == head;
  }

  /** The message ends with the event it was dispatching. */
  lemma MessageEndsWithEvent(context: SubscriberContext)
    requires |context.parameterTypes| > 0
    ensures var m := Message(context).value;
            var tail := " when dispatching event: " + context.event;
            |tail| <= |m| && m[|m| - |tail|..] == tail
  {
    var m := Message(context).value;
    var tail := " when dispatching event: " + context.event;
    var front := "Exception thrown by subscriber method " + context.methodName + "(" + context.parameterTypes[0].name
                 + ")" + " on subscriber " + context.subscriber;
    assert m == front + tail;
    assert (front + tail)[|front|..] == tail;
  }

  /** handleException(exception, context): one report, with the message and the
      original exception, routed as ExceptionReporter.report routes it. */
  function HandleException<C>(registry: Services.Registry<C>, exception: Throwable, context: SubscriberContext)
    : (r: Result<Services.Report>)
    ensures r.Thrown? <==> Message(context).Thrown?
    ensures r.Ok? ==> r.value.message == Message(context).value && r.value.throwable == exception
    ensures r.Ok? ==> Services.ReportWith(registry, NonNull(Message(context).value), exception) == r
  {
    match Message(context)
    case Thrown(e) => Thrown(e)
    case Ok(message) => Services.ReportWith(registry, NonNull(message), exception)
  }
}
