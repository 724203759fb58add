/** Action-based dispatch of `MultiEndpointsViewMixin` (test.py).

    A view declares two static registries that map an action name to the
    name of one of its handler methods: one for GET requests and one for
    POST requests. A request names its action (in the query string for GET,
    in the JSON body for POST); the mixin looks the action up in the
    registry of the request's kind and calls the handler, or falls back to
    the default page (GET) or raises `Http404` (POST). */
module MultiEndpoints {
  import opened Wrappers
  import opened Json

  /** `_POST_TYPE`: the method value that selects the POST registry. */
  const PostType: string := "post"

  /** Route keyword arguments (`**kwargs`), carried through unchanged. */
  type Kwargs = map<string, string>

  /** The two class-level registries of a concrete view: action name to handler name. */
  datatype Views = Views(getViews: map<string, string>, postViews: map<string, string>)

  /** The query parameters `get` reads: `request.GET.get('action')` and `request.GET.get('data')`. */
  datatype Query = Query(action: Option<string>, data: Option<string>)

  /** What handling one request ends in. */
  datatype Outcome =
      /** the registered handler was called with the payload and the route arguments,
          and its result returned unchanged */
    | Invoke(handler: string, data: Json, kwargs: Kwargs)
      /** `render_to_response(get_context_data(**kwargs))` */
    | RenderDefault(kwargs: Kwargs)
      /** `raise Http404()` */
    | NotFound
      /** `json.loads` raised */
    | DecodeFailure(error: DecodeError)
      /** `dict.pop(key)` raised `KeyError` */
    | MissingKey(key: string)
      /** the POST body decoded to something other than a JSON object, which has no
          `pop(key)` (`AttributeError`, or `TypeError` for a list) */
    | BodyNotObject
      /** the POST action was a list or an object: `in` on a dict raises `TypeError` */
    | UnhashableAction

  /** The registry `get_action_handler` consults: POST_VIEWS exactly when `httpMethod`
      equals `'post'`, GET_VIEWS for every other value, `None` included. */
  function SelectRegistry(views: Views, httpMethod: Option<string>): (r: map<string, string>)
  {
    if httpMethod == Some(PostType) then views.postViews else views.getViews
  }

  /** `get_action_handler(action, method)`: the handler registered for `action` in the
      selected registry, or `None`. An absent action (`None`) is never a key, since
      every key is a string. */
  function GetActionHandler(views: Views, action: Option<string>, httpMethod: Option<string>): (r: Option<string>)
  {
    match action
    case None => None
    case Some(a) =>
      var registry := SelectRegistry(views, httpMethod);
      if a in registry then Some(registry[a]) else None
  }

  /** The value `get` hands to its handler: the decoded `data` parameter, or Python's
      `None` when there is none. */
  function GetPayload(loads: Loads, data: Option<string>): (r: Result<Json, DecodeError>)
  {
    match data
    case None => Success(JNull)
    case Some(text) => loads(text)
  }

  /** `get(request, **kwargs)`. The payload is decoded before the handler branch, so a
      malformed `data` fails whether or not a handler is registered. */
  function Get(views: Views, loads: Loads, query: Query, kwargs: Kwargs): (o: Outcome)
    ensures o.Invoke? || o.RenderDefault? || o.DecodeFailure?
    ensures o.DecodeFailure? <==> GetPayload(loads, query.data).Failure?
    ensures o.Invoke? <==> GetPayload(loads, query.data).Success? && GetActionHandler(views, query.action, None).Some?
  {
    var handler := GetActionHandler(views, query.action, None);
    match GetPayload(loads, query.data)
    case Failure(e) => DecodeFailure(e)
    case Success(payload) =>
      match handler
      case Some(h) => Invoke(h, payload, kwargs)
      case None => RenderDefault(kwargs)
  }

  /** How a decoded POST action value meets a registry whose keys are strings. */
  datatype ActionKey =
      /** a string, looked up as itself */
    | Named(name: string)
      /** null, a number or a boolean: hashable, but equal to no string key */
    | NeverAKey
      /** a list or an object: `in` on a dict raises `TypeError` */
    | Unhashable

  /** The key a decoded POST action is looked up under. */
  function KeyOf(action: Json): (k: ActionKey)
  {
    match action
    case JString(s) => Named(s)
    case JArray(_) => Unhashable
    case JObject(_) => Unhashable
    case _ => NeverAKey
  }

  /** The argument `post` passes to `get_action_handler` for a hashable action. */
  function AsLookup(k: ActionKey): (r: Option<string>)
    requires !k.Unhashable?
  {
    if k.Named? then Some(k.name) else None
  }

  /** The decision table `post` implements, stated on the decoded body: decoding fails,
      the body is no object, `action` is missing, `data` is missing, the action is
      unhashable, the action is not registered for POST, or the handler is invoked
      with the value under `data`. */
  function PostOutcome(views: Views, parsed: Result<Json, DecodeError>, kwargs: Kwargs): (o: Outcome)
    ensures !o.RenderDefault?
    ensures o.DecodeFailure? <==> parsed.Failure?
    ensures o.BodyNotObject? <==> parsed.Success? && !parsed.value.JObject?
    ensures o == MissingKey("action") <==>
      parsed.Success? && parsed.value.JObject? && "action" !in parsed.value.fields
    ensures o == MissingKey("data") <==>
      parsed.Success? && parsed.value.JObject? && "action" in parsed.value.fields
      && "data" !in parsed.value.fields
    ensures o.MissingKey? ==> o.key == "action" || o.key == "data"
    ensures o.Invoke? ==>
      && parsed.Success? && parsed.value.JObject?
      && "action" in parsed.value.fields && "data" in parsed.value.fields
      && parsed.value.fields["action"].JString?
      && parsed.value.fields["action"].s in views.postViews
      && o.handler == views.postViews[parsed.value.fields["action"].s]
      && o.data == parsed.value.fields["data"]
      && o.kwargs == kwargs
  {
    match parsed
    case Failure(e) => DecodeFailure(e)
    case Success(body) =>
      if !body.JObject? then BodyNotObject
      else if "action" !in body.fields then MissingKey("action")
      else if "data" !in body.fields then MissingKey("data")
      else
        var key := KeyOf(body.fields["action"]);
        if key.Unhashable? then UnhashableAction
        else
          match GetActionHandler(views, AsLookup(key), Some(PostType))
          case Some(h) => Invoke(h, body.fields["data"], kwargs)
          case None => NotFound
  }

  /** `post(request, **kwargs)`: decode the body, pop `action`, then pop `data` from the
      same dictionary, resolve the action against the POST registry and call the
      handler, or raise `Http404`. */
  method Post(views: Views, loads: Loads, body: string, kwargs: Kwargs) returns (o: Outcome)
    ensures o == PostOutcome(views, loads(body), kwargs)
  {
    var parsed := loads(body);
    if parsed.Failure? {
      return DecodeFailure(parsed.error);
    }
    if !parsed.value.JObject? {
      return BodyNotObject;
    }
    var data := parsed.value.fields;
    // pop `action`
    if "action" !in data {
      return MissingKey("action");
    }
    var action := data["action"];
    data := data - {"action"};
    // pop `data`
    if "data" !in data {
      return MissingKey("data");
    }
    var payload := data["data"];
    data := data - {"data"};
    var key := KeyOf(action);
    if key.Unhashable? {
      return UnhashableAction;
    }
    var handler := GetActionHandler(views, AsLookup(key), Some(PostType));
    if handler.Some? {
      return Invoke(handler.value, payload, kwargs);
    }
    return NotFound;
  }
}
