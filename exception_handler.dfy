/**
 * The application-wide exception handler: which handler Spring picks for an
 * exception, and the status and `{"error": message}` body each handler
 * answers with.  A handler that itself throws (it puts a null message into
 * `Map.of`, or reads the message of a cause that has none) answers `Err`
 * with what it throws.
 */
module ExceptionHandler {
  import opened Wrappers
  import opened Text
  import opened JavaLang

  const BadRequest := 400
  const NotFound := 404
  const InternalServerError := 500

  /** Oracle's unique-constraint error code. */
  const UniqueConstraintCode := "ORA-00001"
  const EmailTaken := "Такой email уже существует"
  const UsernameTaken := "Такой username уже существует"
  const UniqueViolated := "Запись нарушает уникальное ограничение"
  const UnreadableRequest := "Ошибка обработки данных запроса"
  const RequestFailed := "Ошибка обработки запроса"
  const InternalError := "Внутренняя ошибка сервера"

  /** A `ResponseEntity` whose body is `Map.of("error", error)`. */
  datatype Response = Response(status: int, error: string)

  /** The Java classes on the paths from the handled exceptions up to `Exception`. */
  datatype JavaClass =
    | ExceptionClass
    | RuntimeExceptionClass
    | NestedRuntimeExceptionClass
    | DataAccessExceptionClass
    | NonTransientDataAccessExceptionClass
    | DataIntegrityViolationExceptionClass
    | HttpMessageConversionExceptionClass
    | HttpMessageNotReadableExceptionClass
    | PersistenceExceptionClass
    | EntityNotFoundExceptionClass
    | IllegalArgumentExceptionClass
    | NullPointerExceptionClass
    | CheckedExceptionClass   // some exception that does not extend RuntimeException

  /** The superclass, up to `Exception`. */
  function Parent(c: JavaClass): Option<JavaClass> {
    match c
    case ExceptionClass => None
    case RuntimeExceptionClass => Some(ExceptionClass)
    case NestedRuntimeExceptionClass => Some(RuntimeExceptionClass)
    case DataAccessExceptionClass => Some(NestedRuntimeExceptionClass)
    case NonTransientDataAccessExceptionClass => Some(DataAccessExceptionClass)
    case DataIntegrityViolationExceptionClass => Some(NonTransientDataAccessExceptionClass)
    case HttpMessageConversionExceptionClass => Some(NestedRuntimeExceptionClass)
    case HttpMessageNotReadableExceptionClass => Some(HttpMessageConversionExceptionClass)
    case PersistenceExceptionClass => Some(RuntimeExceptionClass)
    case EntityNotFoundExceptionClass => Some(PersistenceExceptionClass)
    case IllegalArgumentExceptionClass => Some(RuntimeExceptionClass)
    case NullPointerExceptionClass => Some(RuntimeExceptionClass)
    case CheckedExceptionClass => Some(ExceptionClass)
  }

  /** How far below `Exception` a class sits. */
  function Rank(c: JavaClass): nat {
    match c
    case ExceptionClass => 0
    case RuntimeExceptionClass | CheckedExceptionClass => 1
    case NestedRuntimeExceptionClass | PersistenceExceptionClass
      | IllegalArgumentExceptionClass | NullPointerExceptionClass => 2
    case DataAccessExceptionClass | HttpMessageConversionExceptionClass | EntityNotFoundExceptionClass => 3
    case NonTransientDataAccessExceptionClass | HttpMessageNotReadableExceptionClass => 4
    case DataIntegrityViolationExceptionClass => 5
  }

  /** How many superclass steps lead from `c` to `target`, if `c` is a subclass of it. */
  function Distance(c: JavaClass, target: JavaClass): (d: Option<nat>)
    decreases Rank(c)
    ensures d == Some(0) <==> c == target
  {
    if c == target then Some(0)
    else match Parent(c)
      case None => None
      case Some(p) =>
        var up := Distance(p, target);
        if up.None? then None else Some(up.value + 1)
  }

  function ClassOf(kind: ExceptionKind): JavaClass {
    match kind
    case RuntimeError => RuntimeExceptionClass
    case IllegalArgument => IllegalArgumentExceptionClass
    case NullPointer => NullPointerExceptionClass
    case DataIntegrityViolation => DataIntegrityViolationExceptionClass
    case MessageNotReadable => HttpMessageNotReadableExceptionClass
    case EntityNotFound => EntityNotFoundExceptionClass
    case CheckedException => CheckedExceptionClass
  }

  /** The handler methods, with the exception class each declares. */
  datatype Handler = DataIntegrityHandler | NotReadableHandler | RuntimeHandler | NotFoundHandler | GeneralHandler

  function Handles(h: Handler): JavaClass {
    match h
    case DataIntegrityHandler => DataIntegrityViolationExceptionClass
    case NotReadableHandler => HttpMessageNotReadableExceptionClass
    case RuntimeHandler => RuntimeExceptionClass
    case NotFoundHandler => EntityNotFoundExceptionClass
    case GeneralHandler => ExceptionClass
  }

  /** The handler each kind of exception reaches. */
  function HandlerFor(kind: ExceptionKind): (h: Handler)
    ensures h == GeneralHandler <==> kind == CheckedException
    ensures h == NotFoundHandler <==> kind == EntityNotFound
  {
    match kind
    case DataIntegrityViolation => DataIntegrityHandler
    case MessageNotReadable => NotReadableHandler
    case EntityNotFound => NotFoundHandler
    case CheckedException => GeneralHandler
    case RuntimeError | IllegalArgument | NullPointer => RuntimeHandler
  }

  /**
   * The table follows Spring's rule for choosing among the declared
   * handlers: the chosen one's class is a superclass of the exception's, and
   * every other handler whose class is one lies strictly further up.
   */
  lemma HandlerForIsNearest(kind: ExceptionKind, other: Handler)
    ensures Distance(ClassOf(kind), Handles(HandlerFor(kind))).Some?
    ensures other != HandlerFor(kind) && Distance(ClassOf(kind), Handles(other)).Some? ==>
      Distance(ClassOf(kind), Handles(HandlerFor(kind))).value < Distance(ClassOf(kind), Handles(other)).value
  {
    match kind {
      case RuntimeError =>
        match other {
          case DataIntegrityHandler =>
          case NotReadableHandler =>
          case RuntimeHandler =>
          case NotFoundHandler =>
          case GeneralHandler =>
        }
      case IllegalArgument =>
        match other {
          case DataIntegrityHandler =>
          case NotReadableHandler =>
          case RuntimeHandler =>
          case NotFoundHandler =>
          case GeneralHandler =>
        }
      case NullPointer =>
        match other {
          case DataIntegrityHandler =>
          case NotReadableHandler =>
          case RuntimeHandler =>
          case NotFoundHandler =>
          case GeneralHandler =>
        }
      case DataIntegrityViolation =>
        match other {
          case DataIntegrityHandler =>
          case NotReadableHandler =>
          case RuntimeHandler =>
          case NotFoundHandler =>
          case GeneralHandler =>
        }
      case MessageNotReadable =>
        match other {
          case DataIntegrityHandler =>
          case NotReadableHandler =>
          case RuntimeHandler =>
          case NotFoundHandler =>
          case GeneralHandler =>
        }
      case EntityNotFound =>
        match other {
          case DataIntegrityHandler =>
          case NotReadableHandler =>
          case RuntimeHandler =>
          case NotFoundHandler =>
          case GeneralHandler =>
        }
      case CheckedException =>
        match other {
          case DataIntegrityHandler =>
          case NotReadableHandler =>
          case RuntimeHandler =>
          case NotFoundHandler =>
          case GeneralHandler =>
        }
    }
  }

  /**
   * `handleDataIntegrityViolation`: an `ORA-00001` cause names the duplicated
   * field (email before username, in any letter case); anything else gives an
   * empty message.  A cause without a message makes the handler throw.
   */
  function DataIntegrity(e: Exception): (r: Result<Response, Exception>)
    ensures r.Err? <==> e.cause.Some? && e.cause.value.message.None?
    ensures r.Ok? ==> r.value.status == BadRequest
    ensures e.cause.None? ==> r == Ok(Response(BadRequest, ""))
    ensures r.Ok? && e.cause.Some? ==> (r.value.error != "" <==> Contains(e.cause.value.message.value, UniqueConstraintCode))
  {
    if e.cause.None? then Ok(Response(BadRequest, ""))
    else if e.cause.value.message.None? then Err(NullDereference)
    else
      var m := e.cause.value.message.value;
      if !Contains(m, UniqueConstraintCode) then Ok(Response(BadRequest, ""))
      else if Contains(ToLower(m), "email") then Ok(Response(BadRequest, EmailTaken))
      else if Contains(ToLower(m), "username") then Ok(Response(BadRequest, UsernameTaken))
      else Ok(Response(BadRequest, UniqueViolated))
  }

  /** `handleHttpMessageNotReadable`: the cause's message when there is one. */
  function NotReadable(e: Exception): (r: Response)
    ensures r.status == BadRequest
    ensures e.cause.Some? && e.cause.value.message.Some? ==> r.error == e.cause.value.message.value
    ensures e.cause.None? || e.cause.value.message.None? ==> r.error == UnreadableRequest
  {
    if e.cause.Some? && e.cause.value.message.Some? then Response(BadRequest, e.cause.value.message.value)
    else Response(BadRequest, UnreadableRequest)
  }

  /** `handleRuntimeException`: the message, or a fixed one when it is null or empty. */
  function RuntimeFailure(e: Exception): (r: Response)
    ensures r.status == BadRequest && r.error != ""
    ensures NonEmpty(e.message) ==> r.error == e.message.value
  {
    if e.message.None? || e.message.value == "" then Response(BadRequest, RequestFailed)
    else Response(BadRequest, e.message.value)
  }

  /** `handleNotFound`: 404 with the message; a null message makes `Map.of` throw. */
  function EntityMissing(e: Exception): (r: Result<Response, Exception>)
    ensures r.Err? <==> e.message.None?
    ensures r.Ok? ==> r.value == Response(NotFound, e.message.value)
  {
    if e.message.None? then Err(NullDereference) else Ok(Response(NotFound, e.message.value))
  }

  /** `handleGeneral`: 500 with the message, or a fixed one when it is null. */
  function General(e: Exception): (r: Response)
    ensures r.status == InternalServerError
    ensures e.message.Some? ==> r.error == e.message.value
    ensures e.message.None? ==> r.error == InternalError
  {
    Response(InternalServerError, e.message.GetOr(InternalError))
  }

  /** What the application answers for an exception that reaches the handler. */
  function Handle(e: Exception): (r: Result<Response, Exception>)
    ensures r.Ok? ==> r.value.status in {BadRequest, NotFound, InternalServerError}
    ensures r.Err? ==> e.kind in {DataIntegrityViolation, EntityNotFound}
  {
    match HandlerFor(e.kind)
    case DataIntegrityHandler => DataIntegrity(e)
    case NotReadableHandler => Ok(NotReadable(e))
    case RuntimeHandler => Ok(RuntimeFailure(e))
    case NotFoundHandler => EntityMissing(e)
    case GeneralHandler => Ok(General(e))
  }

  /**
   * Only checked exceptions are answered with 500, only a missing entity
   * with 404; every other answer is 400.
   */
  lemma StatusByKind(e: Exception)
    requires Handle(e).Ok?
    ensures Handle(e).value.status == InternalServerError <==> e.kind == CheckedException
    ensures Handle(e).value.status == NotFound <==> e.kind == EntityNotFound
    ensures e.kind != CheckedException && e.kind != EntityNotFound ==> Handle(e).value.status == BadRequest
  {
  }

  /** The handler itself throws only for a data-integrity cause without a message or a missing entity without one. */
  lemma HandlerThrowsIff(e: Exception)
    ensures Handle(e).Err? <==>
      || (e.kind == DataIntegrityViolation && e.cause.Some? && e.cause.value.message.None?)
      || (e.kind == EntityNotFound && e.message.None?)
  {
  }

  /** A `RuntimeException`'s message reaches the client whenever it is non-empty. */
  lemma RuntimeMessagePassedOn(e: Exception)
    requires e.kind in {RuntimeError, IllegalArgument, NullPointer}
    requires NonEmpty(e.message)
    ensures Handle(e) == Ok(Response(BadRequest, e.message.value))
  {
  }

  /** `s` contains `q` as written, so its lower-cased form contains `q` lower-cased. */
  lemma {:induction false} ContainsLower(s: string, q: string)
    requires Contains(s, q)
    ensures Contains(ToLower(s), ToLower(q))
  {
    var i :| 0 <= i <= |s| - |q| && OccursAt(s, q, i);
    var ls := ToLower(s);
    assert ls[i..i + |q|] == ToLower(q) by {
      forall k | 0 <= k < |q|
        ensures ls[i..i + |q|][k] == ToLower(q)[k]
      {
        assert s[i..i + |q|][k] == q[k];
      }
    }
    assert OccursAt(ls, ToLower(q), i);
  }

  /** Lower-casing leaves a string without capital letters as it is. */
  lemma LowerOfLower(s: string)
    requires forall i :: 0 <= i < |s| ==> !('A' <= s[i] <= 'Z')
    ensures ToLower(s) == s
  {
    var l := ToLower(s);
    assert forall i :: 0 <= i < |s| ==> l[i] == s[i];
  }

  /** A text containing some spelling of a lower-case word contains the word once lower-cased. */
  lemma MentionIgnoringCase(m: string, spelling: string, word: string)
    requires forall i :: 0 <= i < |word| ==> 'a' <= word[i] <= 'z'
    requires EqualsIgnoreCase(spelling, word) && Contains(m, spelling)
    ensures Contains(ToLower(m), word)
  {
    ContainsLower(m, spelling);
    LowerOfLower(word);
  }

  /**
   * A unique-constraint violation that mentions an email column, in whatever
   * letter case, is reported as a taken email even if it also mentions a
   * username.
   */
  lemma EmailReportedFirst(e: Exception, spelling: string)
    requires e.kind == DataIntegrityViolation
    requires e.cause.Some? && e.cause.value.message.Some?
    requires Contains(e.cause.value.message.value, UniqueConstraintCode)
    requires EqualsIgnoreCase(spelling, "email") && Contains(e.cause.value.message.value, spelling)
    ensures Handle(e) == Ok(Response(BadRequest, EmailTaken))
  {
    MentionIgnoringCase(e.cause.value.message.value, spelling, "email");
    assert DataIntegrity(e) == Ok(Response(BadRequest, EmailTaken));
  }

  /** Without an email mention, a username mention in any letter case is reported as a taken username. */
  lemma UsernameReportedSecond(e: Exception, spelling: string)
    requires e.kind == DataIntegrityViolation
    requires e.cause.Some? && e.cause.value.message.Some?
    requires Contains(e.cause.value.message.value, UniqueConstraintCode)
    requires !Contains(ToLower(e.cause.value.message.value), "email")
    requires EqualsIgnoreCase(spelling, "username") && Contains(e.cause.value.message.value, spelling)
    ensures Handle(e) == Ok(Response(BadRequest, UsernameTaken))
  {
    MentionIgnoringCase(e.cause.value.message.value, spelling, "username");
    assert DataIntegrity(e) == Ok(Response(BadRequest, UsernameTaken));
  }
}
