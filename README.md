# MultiEndpointsViewMixin: action dispatch, modelled in Dafny

`MultiEndpointsViewMixin` (test.py) turns one page view into several endpoints.
A concrete view declares two class-level registries, `GET_VIEWS` and `POST_VIEWS`.
Each maps an action name to the name of a handler method of the view.

- `get_action_handler(action, method)` looks the action up in `POST_VIEWS` when
  `method` is exactly `'post'`, and in `GET_VIEWS` for every other value, `None` included.
- `get` reads `action` and `data` from the query string and JSON-decodes `data` when present.
  It then calls the resolved handler with the payload, or renders the default page.
- `post` JSON-decodes the body, pops `action`, then pops `data` from the decoded dictionary.
  It then calls the handler registered for POST, or raises `Http404`.

The model (modules `Wrappers`, `Json`, `MultiEndpoints`, `DispatchProperties`):

- The registries are the value `Views(getViews, postViews)` of two `map<string, string>`.
  They are class attributes that no request changes, so the model has no class.
- `json.loads` is a parameter `loads: string -> Result<Json, DecodeError>`.
  Every property holds for every decoder.
- The result of a request is an `Outcome`:
  - `Invoke(handler, data, kwargs)`: the handler was called and its result is returned unchanged.
  - `RenderDefault(kwargs)`: the default page was rendered.
  - `NotFound`: `Http404` was raised.
  - `DecodeFailure`: `json.loads` raised.
  - `MissingKey(k)`: `dict.pop(k)` raised `KeyError`.
  - `BodyNotObject`: the decoded POST body has no `pop(key)`.
  - `UnhashableAction`: the POST action is a list or an object, so `in` raises `TypeError`.
- `get` and `get_action_handler` are functions.
- `post` is a method. Like the source, it removes `action` and `data` from a local map one
  after the other. It is proved equal to `PostOutcome`, the decision table of the same
  operation read off the decoded body.

A POST action that is not a string needs care. A string is looked up as itself.
Null, a number or a boolean is hashable but equals no string key, so it yields `Http404`.
A list or an object makes the `in` test raise. `get_action_handler` annotates
`action: str` (test.py:26, 32), but nothing in `post` checks that; the model follows
the code for the other values.

The helper functions `SelectRegistry`, `GetActionHandler`, `GetPayload`, `KeyOf` and
`AsLookup` carry no contract of their own: what they promise is stated by the lemmas
of `DispatchProperties` below.

## Model

| member | source | states |
|---|---|---|
| MultiEndpoints.Get | test.py:44-59 | GET ends only in a handler call, the default render or a decoding failure; it fails iff `data` does not decode, and calls a handler iff `data` decodes and the action resolves for GET |
| MultiEndpoints.PostOutcome | test.py:61-73 | POST never renders the default page; it fails on decoding iff the body does not decode, reports a missing `action` before a missing `data`, and calls a handler only for a string action registered in POST_VIEWS, passing the value under `data` |
| MultiEndpoints.Post | test.py:61-73 | decoding the body and popping `action` then `data` from it ends in exactly the outcome of the decision table `PostOutcome` |
| DispatchProperties.OnlyPostRegisteredResolvesOnlyForPost | test.py:37-39 | an action registered only in POST_VIEWS resolves iff the method is `'post'`, and then to its POST handler |
| DispatchProperties.OnlyGetRegisteredResolvesOnlyForOtherMethods | test.py:40-42 | an action registered only in GET_VIEWS resolves iff the method is not `'post'`, and then to its GET handler |
| DispatchProperties.ResolutionIgnoresUnselectedRegistry | test.py:37-42 | resolution depends only on the registry the method selects |
| DispatchProperties.GetIgnoresPostRegistry | test.py:50 | the outcome of GET does not depend on POST_VIEWS |
| DispatchProperties.GetWithoutActionRendersDefault | test.py:48-59 | a GET without `action` renders the default page unless `data` is malformed |
| DispatchProperties.GetMalformedDataFails | test.py:52-53 | a GET whose `data` does not decode fails with that decoding error, whatever the action |
| DispatchProperties.GetRegisteredInvokesHandler | test.py:55-56 | a GET naming a registered action calls its handler with the decoded payload and the route arguments |
| DispatchProperties.GetUnregisteredIsLikeNoAction | test.py:57-59 | a GET naming an unregistered action has the same outcome as one naming none, the default render when `data` decodes |
| DispatchProperties.GetAbsentDataIsNull | test.py:49-53 | a missing `data` and `data=null` reach the handler as the same `None` |
| DispatchProperties.PostIgnoresGetRegistry | test.py:69 | the outcome of POST does not depend on GET_VIEWS |
| DispatchProperties.PostStringAction | test.py:67-73 | a body with a string action and a `data` key calls the POST handler of that action with the `data` value, or raises `Http404` when it is unregistered |
| DispatchProperties.PostUnhashableAction | test.py:67-69 | a body whose action is a list or an object, with both keys present, ends in the `TypeError` of an unhashable lookup |
| DispatchProperties.PostNonStringScalarActionNotFound | test.py:69-73 | an action that is null, a number or a boolean always raises `Http404` |
| DispatchProperties.PostMissingKeysBeforeLookup | test.py:67-68 | a body lacking `action` or `data` fails with the missing key, `action` first, before any lookup |
| DispatchProperties.GetReachesRegisteredAction | test.py:48-56 | for every registered GET action some query calls its handler (with `None`) |
| DispatchProperties.PostReachesRegisteredAction | test.py:65-72 | for every registered POST action and every payload some decoded POST body calls its handler with that payload |
| DispatchProperties.GetReachesExactlyGetRegistry | test.py:44-59 | the handlers GET can call are exactly the values of GET_VIEWS |
| DispatchProperties.PostReachesExactlyPostRegistry | test.py:61-73 | the handlers some decoded POST body can call are exactly the values of POST_VIEWS; for `Post` itself this holds of the request texts the decoder maps to those bodies |
| DispatchProperties.RegistriesAreSeparateNamespaces | test.py:37-42 | a handler registered only for one kind of request is reachable by that kind (some GET query, or some decoded POST body) and never by the other |

## Left out

- The web framework: the request and response objects, `get_context_data` and
  `render_to_response`. The default render is the outcome `RenderDefault`.
- `json.loads`: a standard-library parser, taken as the parameter `loads`. The POST body,
  bytes in Django, is given to it as text.
- `getattr`: a handler is its registered name. The model assumes every registered name
  is a method of the view, so the `AttributeError` of a wrong name is not modelled.
  With it, resolution would fail before a malformed GET `data` is decoded.
- JSON numbers are modelled as reals: the model cannot tell Python's `int` from `float`,
  nor hold the `NaN` and `Infinity` values `json.loads` accepts. No dispatch decision
  depends on a number's value.
- The handler bodies and what they return: `Invoke` records the call, not its result.
- The request object passed to the handler: it is the same object in every outcome.
- Route keyword arguments: a `map<string, string>` passed through unchanged.
- A query parameter given several times: the model sees the one value Django returns.
- The exception mechanism and the HTTP status translation: errors are outcomes.
- Concurrency across requests: the mixin keeps no state between requests.
