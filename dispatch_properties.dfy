/** Properties of the dispatch rule of `MultiEndpointsViewMixin`: the separation of
    the two registries, the GET fallback, the order in which errors are raised and
    which handlers each kind of request can reach. */
module DispatchProperties {
  import opened Wrappers
  import opened Json
  import opened MultiEndpoints

  // ---------------------------------------------------------------------------
  // Resolution (get_action_handler)
  // ---------------------------------------------------------------------------

  /** An action registered in only one registry resolves exactly through that
      registry's method value and never through the other. */
  lemma OnlyPostRegisteredResolvesOnlyForPost(views: Views, a: string, httpMethod: Option<string>)
    requires a in views.postViews && a !in views.getViews
    ensures GetActionHandler(views, Some(a), httpMethod).Some? <==> httpMethod == Some(PostType)
    ensures httpMethod == Some(PostType) ==>
      GetActionHandler(views, Some(a), httpMethod) == Some(views.postViews[a])
  {
  }

  lemma OnlyGetRegisteredResolvesOnlyForOtherMethods(views: Views, a: string, httpMethod: Option<string>)
    requires a in views.getViews && a !in views.postViews
    ensures GetActionHandler(views, Some(a), httpMethod).Some? <==> httpMethod != Some(PostType)
    ensures httpMethod != Some(PostType) ==>
      GetActionHandler(views, Some(a), httpMethod) == Some(views.getViews[a])
  {
  }

  /** Resolution reads only the selected registry: replacing the other one changes nothing. */
  lemma ResolutionIgnoresUnselectedRegistry(g: map<string, string>, p: map<string, string>,
                                            g': map<string, string>, p': map<string, string>,
                                            action: Option<string>, httpMethod: Option<string>)
    requires httpMethod == Some(PostType) ==> p == p'
    requires httpMethod != Some(PostType) ==> g == g'
    ensures GetActionHandler(Views(g, p), action, httpMethod) == GetActionHandler(Views(g', p'), action, httpMethod)
  {
  }

  // ---------------------------------------------------------------------------
  // GET
  // ---------------------------------------------------------------------------

  /** GET never consults POST_VIEWS. */
  lemma GetIgnoresPostRegistry(g: map<string, string>, p: map<string, string>, p': map<string, string>,
                               loads: Loads, query: Query, kwargs: Kwargs)
    ensures Get(Views(g, p), loads, query, kwargs) == Get(Views(g, p'), loads, query, kwargs)
  {
  }

  /** Without an `action` parameter GET renders the default page, unless `data` is malformed. */
  lemma GetWithoutActionRendersDefault(views: Views, loads: Loads, data: Option<string>, kwargs: Kwargs)
    ensures Get(views, loads, Query(None, data), kwargs) ==
      match GetPayload(loads, data)
      case Failure(e) => DecodeFailure(e)
      case Success(_) => RenderDefault(kwargs)
  {
  }

  /** A malformed `data` fails the request whatever the action, even where the
      default page would otherwise be rendered. */
  lemma GetMalformedDataFails(views: Views, loads: Loads, action: Option<string>, text: string, kwargs: Kwargs)
    requires loads(text).Failure?
    ensures Get(views, loads, Query(action, Some(text)), kwargs) == DecodeFailure(loads(text).error)
  {
  }

  /** A registered GET action calls its handler with the decoded payload (or `None`) and
      the route arguments, and the request's result is the handler's. */
  lemma GetRegisteredInvokesHandler(views: Views, loads: Loads, a: string, data: Option<string>, kwargs: Kwargs)
    requires a in views.getViews
    requires GetPayload(loads, data).Success?
    ensures Get(views, loads, Query(Some(a), data), kwargs) ==
      Invoke(views.getViews[a], GetPayload(loads, data).value, kwargs)
  {
  }

  /** An unregistered GET action is the same request as one naming no action at all. */
  lemma GetUnregisteredIsLikeNoAction(views: Views, loads: Loads, a: string, data: Option<string>, kwargs: Kwargs)
    requires a !in views.getViews
    ensures Get(views, loads, Query(Some(a), data), kwargs) == Get(views, loads, Query(None, data), kwargs)
    ensures GetPayload(loads, data).Success? ==> Get(views, loads, Query(Some(a), data), kwargs) == RenderDefault(kwargs)
  {
  }

  /** A handler cannot tell a missing `data` parameter from `data=null`: both arrive as `None`. */
  lemma GetAbsentDataIsNull(views: Views, loads: Loads, action: Option<string>, kwargs: Kwargs)
    requires loads("null") == Success(JNull)
    ensures Get(views, loads, Query(action, None), kwargs) == Get(views, loads, Query(action, Some("null")), kwargs)
  {
  }

  // ---------------------------------------------------------------------------
  // POST
  // ---------------------------------------------------------------------------

  /** POST never consults GET_VIEWS. */
  lemma PostIgnoresGetRegistry(g: map<string, string>, g': map<string, string>, p: map<string, string>,
                               parsed: Result<Json, DecodeError>, kwargs: Kwargs)
    ensures PostOutcome(Views(g, p), parsed, kwargs) == PostOutcome(Views(g', p), parsed, kwargs)
  {
  }

  /** A body `{"action": a, "data": d}` (possibly with more keys) calls the handler
      registered for `a` with `d`, or raises `Http404` when `a` is not registered. */
  lemma PostStringAction(views: Views, fields: map<string, Json>, a: string, kwargs: Kwargs)
    requires "action" in fields && fields["action"] == JString(a) && "data" in fields
    ensures a in views.postViews ==>
      PostOutcome(views, Success(JObject(fields)), kwargs) == Invoke(views.postViews[a], fields["data"], kwargs)
    ensures a !in views.postViews ==> PostOutcome(views, Success(JObject(fields)), kwargs) == NotFound
  {
  }

  /** An action that is null, a number or a boolean is never registered: `Http404`. */
  lemma PostNonStringScalarActionNotFound(views: Views, fields: map<string, Json>, kwargs: Kwargs)
    requires "action" in fields && "data" in fields
    requires fields["action"].JNull? || fields["action"].JBool? || fields["action"].JNumber?
    ensures PostOutcome(views, Success(JObject(fields)), kwargs) == NotFound
  {
  }

  /** An action that is a list or an object cannot be looked up: `in` raises `TypeError`. */
  lemma PostUnhashableAction(views: Views, fields: map<string, Json>, kwargs: Kwargs)
    requires "action" in fields && "data" in fields
    requires fields["action"].JArray? || fields["action"].JObject?
    ensures PostOutcome(views, Success(JObject(fields)), kwargs) == UnhashableAction
  {
  }

  /** Missing keys are reported before any lookup, `action` before `data`: a body lacking
      both fails on `action`, whatever either registry holds. */
  lemma PostMissingKeysBeforeLookup(views: Views, fields: map<string, Json>, kwargs: Kwargs)
    requires "action" !in fields || "data" !in fields
    ensures PostOutcome(views, Success(JObject(fields)), kwargs) ==
      if "action" !in fields then MissingKey("action") else MissingKey("data")
  {
  }

  // ---------------------------------------------------------------------------
  // Reachability: which handlers each kind of request can call
  // ---------------------------------------------------------------------------

  /** Some GET request calls handler `h`. */
  ghost predicate ReachableByGet(views: Views, loads: Loads, kwargs: Kwargs, h: string)
  {
    exists q: Query :: Get(views, loads, q, kwargs).Invoke? && Get(views, loads, q, kwargs).handler == h
  }

  /** Some decoded POST body calls handler `h`. */
  ghost predicate ReachableByPost(views: Views, kwargs: Kwargs, h: string)
  {
    exists body: Json ::
      PostOutcome(views, Success(body), kwargs).Invoke? && PostOutcome(views, Success(body), kwargs).handler == h
  }

  /** The query `?action=a` calls the handler registered for `a` with `None`. */
  lemma {:induction false} GetReachesRegisteredAction(views: Views, loads: Loads, a: string, kwargs: Kwargs)
    requires a in views.getViews
    ensures exists q: Query :: Get(views, loads, q, kwargs) == Invoke(views.getViews[a], JNull, kwargs)
  {
    assert Get(views, loads, Query(Some(a), None), kwargs) == Invoke(views.getViews[a], JNull, kwargs);
  }

  /** Every registered POST action can be called with every payload. */
  lemma {:induction false} PostReachesRegisteredAction(views: Views, a: string, d: Json, kwargs: Kwargs)
    requires a in views.postViews
    ensures exists body: Json :: PostOutcome(views, Success(body), kwargs) == Invoke(views.postViews[a], d, kwargs)
  {
    var body := JObject(map["action" := JString(a), "data" := d]);
    assert PostOutcome(views, Success(body), kwargs) == Invoke(views.postViews[a], d, kwargs);
  }

  /** The handlers GET requests can call are exactly the values of GET_VIEWS. */
  lemma {:induction false} GetReachesExactlyGetRegistry(views: Views, loads: Loads, kwargs: Kwargs, h: string)
    ensures ReachableByGet(views, loads, kwargs, h) <==> h in views.getViews.Values
  {
    if ReachableByGet(views, loads, kwargs, h) {
      var q: Query :| Get(views, loads, q, kwargs).Invoke? && Get(views, loads, q, kwargs).handler == h;
      assert q.action.value in views.getViews;
      assert views.getViews[q.action.value] in views.getViews.Values;
    }
    if h in views.getViews.Values {
      var a :| a in views.getViews && views.getViews[a] == h;
      GetReachesRegisteredAction(views, loads, a, kwargs);
    }
  }

  /** The handlers POST requests can call are exactly the values of POST_VIEWS. */
  lemma {:induction false} PostReachesExactlyPostRegistry(views: Views, kwargs: Kwargs, h: string)
    ensures ReachableByPost(views, kwargs, h) <==> h in views.postViews.Values
  {
    if ReachableByPost(views, kwargs, h) {
      var body: Json :| PostOutcome(views, Success(body), kwargs).Invoke? && PostOutcome(views, Success(body), kwargs).handler == h;
      var a := body.fields["action"].s;
      assert views.postViews[a] in views.postViews.Values;
    }
    if h in views.postViews.Values {
      var a :| a in views.postViews && views.postViews[a] == h;
      PostReachesRegisteredAction(views, a, JNull, kwargs);
    }
  }

  /** The two registries are separate namespaces: a handler registered only for POST is
      reachable by some POST body and by no GET request, and the other way round. */
  lemma {:induction false} RegistriesAreSeparateNamespaces(views: Views, loads: Loads, kwargs: Kwargs, h: string)
    ensures h in views.postViews.Values && h !in views.getViews.Values ==>
      ReachableByPost(views, kwargs, h) && !ReachableByGet(views, loads, kwargs, h)
    ensures h in views.getViews.Values && h !in views.postViews.Values ==>
      ReachableByGet(views, loads, kwargs, h) && !ReachableByPost(views, kwargs, h)
  {
    GetReachesExactlyGetRegistry(views, loads, kwargs, h);
    PostReachesExactlyPostRegistry(views, kwargs, h);
  }
}
