/**
 * ProductController of the current version: the same request log lifecycle as the user
 * controller, one step per action (the user step names are reused), and no service
 * steps of its own. No implementation of IProductServices is part of this model, so
 * each action takes what the service answers when it is called as a parameter.
 */
module ProductControllers {
  import opened Wrappers
  import opened Http
  import opened Responses
  import opened ProductRequests
  import opened Logging
  import ProductResponseErrors

  /** IProductServices: only its identity (the constructor's null check) is modelled. */
  class ProductServices {
    constructor () {
    }
  }

  /**
   * What an action ends with: the result the client receives, the response and level
   * stored in the base log, the exception caught into the action's sub-log, and whether
   * the service was asked.
   */
  datatype Answer = Answer(result: ActionResult<ResponseEnvelope>, logged: ResponseEnvelope, level: LogLevel, caught: Option<Exception>, called: bool)

  /** A non-positive id, answered on the spot. */
  const InvalidId: Answer :=
    Answer(StatusCode(ProductResponseErrors.InvalidProductId.responseCode.Code(), ProductResponseErrors.InvalidProductId),
           ProductResponseErrors.InvalidProductId, WARN, None, false)

  /** The catch block: the exception goes to the sub-log, the client gets the fixed 500 envelope. */
  function Caught(ex: Exception, called: bool): (a: Answer)
    ensures a.result.Status() == 500 && a.result.Body() == ProductResponseErrors.InternalServerError
    ensures a.logged == a.result.Body() && a.level == ERROR && a.caught == Some(ex) && a.called == called
  {
    var error := ProductResponseErrors.InternalServerError;
    Answer(StatusCode(error.responseCode.Code(), error), error, ERROR, Some(ex), called)
  }

  /**
   * The service was called: a returned envelope is logged and answered (through `wrap`,
   * the implicit conversion or Ok), INFO exactly when it carries the action's success
   * code; an exception is caught.
   */
  function Serviced(service: Outcome<ResponseEnvelope>, success: HttpStatusCode, ok: bool): (a: Answer)
    ensures a.called && a.logged == a.result.Body()
    ensures a.level == ERROR <==> service.Threw?
    ensures a.level == INFO <==> service.Returned? && service.value.responseCode == success
    ensures a.caught.Some? <==> service.Threw?
    ensures service.Threw? ==> a == Caught(service.error, true)
    ensures service.Returned? ==> a.logged == service.value && a.result.Status() == 200
    ensures service.Returned? ==> (a.result.ObjectResult? <==> ok)
  {
    match service
    case Threw(ex) => Caught(ex, true)
    case Returned(r) =>
      Answer(if ok then Ok(r) else Value(r), r, if r.responseCode == success then INFO else WARN, None, true)
  }

  /**
   * The validation step of ProductCreate and ProductEdit: reading the code of a missing
   * (null) validation result throws NullReferenceException; a result other than
   * Continue is answered as it is; Continue lets the service run.
   */
  function Validated(validation: Option<ResponseEnvelope>, service: Outcome<ResponseEnvelope>, success: HttpStatusCode): (a: Answer)
    ensures a.logged == a.result.Body()
    ensures validation.None? ==> a == Caught(NullReferenceException, false)
    ensures a.called <==> validation.Some? && validation.value.responseCode == Continue
    ensures validation.Some? && !a.called ==>
      a.result.Status() == validation.value.responseCode.Code() && a.logged == validation.value && a.level == WARN && a.caught.None?
    ensures a.called ==> a == Serviced(service, success, false)
  {
    match validation
    case None => Caught(NullReferenceException, false)
    case Some(v) =>
      if v.responseCode != Continue then Answer(StatusCode(v.responseCode.Code(), v), v, WARN, None, false)
      else Serviced(service, success, false)
  }

  /** ProductDetails: the id check, then RetrieveProduct's envelope passed through, INFO exactly when it is OK. */
  function DetailsAnswer(productId: int, service: Outcome<ResponseEnvelope>): (a: Answer)
    ensures a.called <==> productId > 0
    ensures a.logged == a.result.Body()
    ensures productId <= 0 ==> a == InvalidId && a.result.Status() == 400
    ensures a.level == INFO <==> productId > 0 && service.Returned? && service.value.responseCode == OK
    ensures a.level == ERROR <==> productId > 0 && service.Threw?
    ensures productId > 0 && service.Returned? ==> a.result == Value(service.value)
    ensures productId > 0 && service.Threw? ==> a == Caught(service.error, true)
  {
    if productId <= 0 then InvalidId else Serviced(service, OK, false)
  }

  /**
   * ProductCreate. Because IsValid always answers null, no product is ever created: every
   * create ends in the catch block with a NullReferenceException, a 500 and level ERROR,
   * whatever the service would have answered.
   */
  function CreateAnswer(product: ProductRequest, service: Outcome<ResponseEnvelope>): (a: Answer)
    ensures !a.called && a.logged == a.result.Body()
    ensures a == Caught(NullReferenceException, false) && a.result.Status() == 500
  {
    Validated(IsValid(product), service, Created)
  }

  /** ProductEdit: the id check first; past it, the same null validation result as ProductCreate. */
  function EditAnswer(productId: int, product: ProductRequest, service: Outcome<ResponseEnvelope>): (a: Answer)
    ensures !a.called && a.logged == a.result.Body()
    ensures productId <= 0 ==> a == InvalidId && a.result.Status() == 400
    ensures productId > 0 ==> a == Caught(NullReferenceException, false) && a.result.Status() == 500
  {
    if productId <= 0 then InvalidId else Validated(IsValid(product), service, OK)
  }

  /** ProductDelete: like ProductDetails, except that a returned envelope is wrapped in Ok. */
  function DeleteAnswer(productId: int, service: Outcome<ResponseEnvelope>): (a: Answer)
    ensures a.called <==> productId > 0
    ensures a.logged == a.result.Body()
    ensures productId <= 0 ==> a == InvalidId && a.result.Status() == 400
    ensures a.level == INFO <==> productId > 0 && service.Returned? && service.value.responseCode == OK
    ensures a.level == ERROR <==> productId > 0 && service.Threw?
    ensures productId > 0 && service.Returned? ==> a.result == Ok(service.value) && a.result.Status() == 200
    ensures productId > 0 && service.Threw? ==> a == Caught(service.error, true)
  {
    if productId <= 0 then InvalidId else Serviced(service, OK, true)
  }

  /**
   * Details and Delete differ only in how a returned envelope is wrapped: Details passes
   * it through, Delete wraps it in Ok; the client sees status 200 and the same body
   * either way, whatever code the envelope carries.
   */
  lemma DetailsAndDeleteAgree(productId: int, service: Outcome<ResponseEnvelope>)
    ensures DetailsAnswer(productId, service).logged == DeleteAnswer(productId, service).logged
    ensures DetailsAnswer(productId, service).level == DeleteAnswer(productId, service).level
    ensures DetailsAnswer(productId, service).result.Status() == DeleteAnswer(productId, service).result.Status()
    ensures DetailsAnswer(productId, service).result.Body() == DeleteAnswer(productId, service).result.Body()
    ensures productId > 0 && service.Returned? ==>
      DeleteAnswer(productId, service).result.Status() == 200 && DetailsAnswer(productId, service).result != DeleteAnswer(productId, service).result
  {
  }

  class ProductController {
    const services: ProductServices
    const log: SingleLog

    constructor (services: ProductServices, log: SingleLog)
      ensures this.services == services && this.log == log
    {
      this.services := services;
      this.log := log;
    }

    /** The constructor's null checks: `?? throw new ArgumentNullException(nameof(...))`. */
    static method New(services: ProductServices?, log: SingleLog?) returns (o: Outcome<ProductController>)
      ensures services == null ==> o == Threw(ArgumentNullException("productServices"))
      ensures services != null && log == null ==> o == Threw(ArgumentNullException("singleLog"))
      ensures services != null && log != null ==> o.Returned? && fresh(o.value) && o.value.services == services && o.value.log == log
    {
      if services == null {
        o := Threw(ArgumentNullException("productServices"));
      } else if log == null {
        o := Threw(ArgumentNullException("singleLog"));
      } else {
        var c := new ProductController(services, log);
        o := Returned(c);
      }
    }

    /** ProductDetails. `service` is what RetrieveProduct answers when it is called. */
    method ProductDetails(productId: int, service: Outcome<ResponseEnvelope>) returns (result: ActionResult<ResponseEnvelope>, ghost own: SubLog)
      modifies log
      ensures var a := DetailsAnswer(productId, service);
        && result == a.result
        && log.current != null && fresh(log.current) && log.written == old(log.written) + [log.current]
        && log.current.request == Some(ProductIdRequest(productId)) && log.current.response == Some(EnvelopeLogged(a.logged))
        && log.current.level == Some(a.level) && log.current.steps == [Step(GET_USER_BY_ID, own)]
        && fresh(own) && own.starts == 1 && own.stops == 1 && own.exception == a.caught
    {
      var baseLog, sublog := BeginRequest(log, ProductIdRequest(productId), GET_USER_BY_ID);
      own := sublog;
      var exception: Option<Exception>, response: ResponseEnvelope, level: LogLevel;
      if productId <= 0 {
        var error := ProductResponseErrors.InvalidProductId;
        result, exception, response, level := StatusCode(error.responseCode.Code(), error), None, error, WARN;
      } else {
        match service {
          case Returned(r) =>
            result, exception, response, level := Value(r), None, r, if r.responseCode == OK then INFO else WARN;
          case Threw(ex) =>
            var error := ProductResponseErrors.InternalServerError;
            result, exception, response, level := StatusCode(error.responseCode.Code(), error), Some(ex), error, ERROR;
        }
      }
      EndRequest(log, baseLog, sublog, exception, EnvelopeLogged(response), level);
    }

    /** ProductCreate. `service` is what CreateProduct would answer; IsValid's null result keeps it from being asked. */
    method ProductCreate(product: ProductRequest, service: Outcome<ResponseEnvelope>) returns (result: ActionResult<ResponseEnvelope>, ghost own: SubLog)
      modifies log
      ensures var a := CreateAnswer(product, service);
        && result == a.result
        && log.current != null && fresh(log.current) && log.written == old(log.written) + [log.current]
        && log.current.request == Some(ProductBodyRequest(product)) && log.current.response == Some(EnvelopeLogged(a.logged))
        && log.current.level == Some(a.level) && log.current.steps == [Step(CREATE_NEW_USER, own)]
        && fresh(own) && own.starts == 1 && own.stops == 1 && own.exception == a.caught
    {
      var baseLog, sublog := BeginRequest(log, ProductBodyRequest(product), CREATE_NEW_USER);
      own := sublog;
      var exception: Option<Exception>, response: ResponseEnvelope, level: LogLevel;
      match IsValid(product) {
        case None =>
          // Reading the code of the null validation result throws.
          var error := ProductResponseErrors.InternalServerError;
          result, exception, response, level := StatusCode(error.responseCode.Code(), error), Some(NullReferenceException), error, ERROR;
        case Some(v) =>
          if v.responseCode != Continue {
            result, exception, response, level := StatusCode(v.responseCode.Code(), v), None, v, WARN;
          } else {
            match service {
              case Returned(r) =>
                result, exception, response, level := Value(r), None, r, if r.responseCode == Created then INFO else WARN;
              case Threw(ex) =>
                var error := ProductResponseErrors.InternalServerError;
                result, exception, response, level := StatusCode(error.responseCode.Code(), error), Some(ex), error, ERROR;
            }
          }
      }
      EndRequest(log, baseLog, sublog, exception, EnvelopeLogged(response), level);
    }

    /** ProductEdit. `service` is what UpdateProduct would answer. */
    method ProductEdit(productId: int, product: ProductRequest, service: Outcome<ResponseEnvelope>) returns (result: ActionResult<ResponseEnvelope>, ghost own: SubLog)
      modifies log
      ensures var a := EditAnswer(productId, product, service);
        && result == a.result
        && log.current != null && fresh(log.current) && log.written == old(log.written) + [log.current]
        && log.current.request == Some(ProductEditRequest(productId, product)) && log.current.response == Some(EnvelopeLogged(a.logged))
        && log.current.level == Some(a.level) && log.current.steps == [Step(EDIT_USER_BY_ID, own)]
        && fresh(own) && own.starts == 1 && own.stops == 1 && own.exception == a.caught
    {
      var baseLog, sublog := BeginRequest(log, ProductEditRequest(productId, product), EDIT_USER_BY_ID);
      own := sublog;
      var exception: Option<Exception>, response: ResponseEnvelope, level: LogLevel;
      if productId <= 0 {
        var error := ProductResponseErrors.InvalidProductId;
        result, exception, response, level := StatusCode(error.responseCode.Code(), error), None, error, WARN;
      } else {
        match IsValid(product) {
          case None =>
            // Reading the code of the null validation result throws.
            var error := ProductResponseErrors.InternalServerError;
            result, exception, response, level := StatusCode(error.responseCode.Code(), error), Some(NullReferenceException), error, ERROR;
          case Some(v) =>
            if v.responseCode != Continue {
              result, exception, response, level := StatusCode(v.responseCode.Code(), v), None, v, WARN;
            } else {
              match service {
                case Returned(r) =>
                  result, exception, response, level := Value(r), None, r, if r.responseCode == OK then INFO else WARN;
                case Threw(ex) =>
                  var error := ProductResponseErrors.InternalServerError;
                  result, exception, response, level := StatusCode(error.responseCode.Code(), error), Some(ex), error, ERROR;
              }
            }
        }
      }
      EndRequest(log, baseLog, sublog, exception, EnvelopeLogged(response), level);
    }

    /** ProductDelete: a returned envelope is answered with Ok, whatever its code. */
    method ProductDelete(productId: int, service: Outcome<ResponseEnvelope>) returns (result: ActionResult<ResponseEnvelope>, ghost own: SubLog)
      modifies log
      ensures var a := DeleteAnswer(productId, service);
        && result == a.result
        && log.current != null && fresh(log.current) && log.written == old(log.written) + [log.current]
        && log.current.request == Some(ProductIdRequest(productId)) && log.current.response == Some(EnvelopeLogged(a.logged))
        && log.current.level == Some(a.level) && log.current.steps == [Step(DELETE_USER_BY_ID, own)]
        && fresh(own) && own.starts == 1 && own.stops == 1 && own.exception == a.caught
    {
      var baseLog, sublog := BeginRequest(log, ProductIdRequest(productId), DELETE_USER_BY_ID);
      own := sublog;
      var exception: Option<Exception>, response: ResponseEnvelope, level: LogLevel;
      if productId <= 0 {
        var error := ProductResponseErrors.InvalidProductId;
        result, exception, response, level := StatusCode(error.responseCode.Code(), error), None, error, WARN;
      } else {
        match service {
          case Returned(r) =>
            result, exception, response, level := Ok(r), None, r, if r.responseCode == OK then INFO else WARN;
          case Threw(ex) =>
            var error := ProductResponseErrors.InternalServerError;
            result, exception, response, level := StatusCode(error.responseCode.Code(), error), Some(ex), error, ERROR;
        }
      }
      EndRequest(log, baseLog, sublog, exception, EnvelopeLogged(response), level);
    }
  }
}
