# jifbox service configuration and authorization, in Dafny

jifbox is a small Flask application (`web.py`). It broadcasts one event to a fixed
set of publishing services (Dropbox and Tumblr). Each service keeps one
configuration document in a MongoDB collection. The document holds the OAuth
state of the service: the Tumblr request-token pair while an authorization is
in progress, and the `access_token` once it is complete.

This project models that core:

- `Documents` (documents.dfy): a configuration document as a map from field names to values (a string, or a list of strings), and the `dict` operations the source uses on it.
- `Capability` (capability.dfy): the three service variants and their `is_available` / `is_enabled` rules.
- `Store` (store.dfy): the `services` collection as a class `Collection` with a save counter, and `Service`, a class holding one in-memory document. It has `register`, `__getitem__`, `__setitem__`, `__delitem__` and the three subclass constructors.
- `Dispatch` (dispatch.dfy): the selection rule of the `giffed` loop, stated on values, with inductive lemmas.
- `Web` (web.py routes, web.dfy): class `App` holds the registry. Its methods are the routes that read or change service state: `giffed`, the Dropbox callback and logout, and the Tumblr authorize, callback and logout.

Calls into libraries and the environment are inputs:

- environment variables become constructor parameters;
- what `process` does for this request's payload becomes a function from service id to `Returned(meta)` or `Raised`;
- the request-token call becomes an optional string pair;
- the access-token exchange becomes a function of the stored request pair and the verifier;
- the Dropbox `finish` call becomes a `FinishOutcome` value.

An exception that the source does not catch is the reply `Failed` (or
`ServerError` for `giffed`).

The model follows the code where it is weaker than a broker of this kind is usually described:

- A failed Tumblr access-token exchange leaves the request-token pair stored. The code deletes it only after a successful exchange.
- `giffed` does not isolate a failing service. A `process` that raises aborts the whole request, and no later service is called.
- `__setitem__` changes the in-memory document before saving, with no rollback.
- `process` does not itself check availability or enablement.

## Model

| member | source | states |
|---|---|---|
| `Documents.Put` | web.py:56-58 | after `doc[key] = v`, reading `key` gives `v`, every other key reads as before, and the key set gains only `key` |
| `Documents.Remove` | web.py:48-51 | after `del doc[key]`, `key` reads as absent, every other key reads as before, and an absent key leaves the document equal to the original |
| `Documents.NewDocument` | web.py:42-44 | a newly created document holds exactly one field, `service_id`, set to the service's id; every other key reads as absent |
| `Capability.JifboxInert` | web.py:126-129 | the configuration-only service is never available and never enabled, whatever is configured or stored |
| `Capability.TumblrNeedsHostname` | web.py:101-103 | Tumblr is available iff Dropbox's condition (non-empty key and secret) holds and a non-empty hostname is set too |
| `Capability.EnabledOnlyByAccessToken` | web.py:81-83 | two documents with the same `access_token` entry give the same enablement: nothing else decides it |
| `Capability.EnabledAfterPut` | web.py:105-107 | after storing a token, a real service is enabled iff the token is truthy (a non-empty string or list) |
| `Capability.DisabledAfterRemove` | web.py:238-241 | once `access_token` is removed, no service is enabled |
| `Store.Collection.FindOne` | web.py:40 | `find_one` by service id: the stored document, or nothing when none exists; it is the lookup `Store.Service.Register` relies on to reuse a document unchanged |
| `Store.Collection.Save` | web.py:45 | `save` inserts or replaces the id's document and counts one save |
| `Store.Service.Register` | web.py:39-46 | an existing document is reused unchanged, with no write; otherwise exactly one document holding only `service_id` is created and saved; in both cases memory and store then agree |
| `Store.Service.Item` | web.py:53-54 | `self[key]` is `dict.get`: absent keys give `None`; what it reads after a write or delete is stated by `Store.Service.SetItem` and `Store.Service.DelItem` |
| `Store.Service.SetItem` | web.py:56-58 | reading `key` afterwards gives the new value, every other key is unchanged, and the document is saved exactly once under the service's id |
| `Store.Service.DelItem` | web.py:48-51 | a present key is removed and the document saved once; an absent key changes neither memory nor store and saves nothing; afterwards the key reads as `None`, other keys are unchanged, and agreement with the store is kept |
| `Store.Service.DropboxService` | web.py:68-75 | the Dropbox service reuses its stored document or creates `NewDocument`, then stores the environment's token when it is non-empty (which enables the service); the store gains exactly that document and the saves are one for a creation plus one for a token |
| `Store.Service.TumblrService` | web.py:95-99 | the Tumblr service keeps key, secret and hostname as configured and reuses its stored document (no save) or creates and saves `NewDocument` (one save) |
| `Store.Service.JifboxService` | web.py:126-129 | the configuration-only service reuses or creates its document (one save only on creation) and is neither available nor enabled |
| `Dispatch.ErrorSticks` | web.py:192-196 | once a `process` call has raised, the rest of the registry changes neither the failed response nor the list of calls made |
| `Dispatch.BroadcastActive` | web.py:192-196 | a successful broadcast reports exactly the ids of services that are available, enabled and returned truthy metadata, each mapped to that metadata |
| `Dispatch.BroadcastFails` | web.py:192-196 | the broadcast fails iff some available and enabled service's `process` raised |
| `Dispatch.InvokedExactly` | web.py:192-196 | `process` is never called on a service that is unavailable or disabled; each call is for an available and enabled service, at most once per service; and when the broadcast succeeds, every such service was called |
| `Dispatch.OnlyReadyServiceReported` | web.py:192-196 | with A available and enabled, B available but disabled and C unavailable, only A is called and only A is reported |
| `Web.App.Views` | web.py:192-193 | the loop sees one entry per registered service, with distinct ids, each reporting that service's current availability and enablement |
| `Web.App.Giffed` | web.py:179-198 | the route's response and the calls it makes are those of the selection rule over the registry in iteration order; a successful response's keys are exactly the selected services |
| `Web.App.constructor` | web.py:132-135 | start-up registers Dropbox then Tumblr in the shared store: each config is its stored document or `NewDocument`, Dropbox's with the configured token added; the store changes only in those two documents; saves count one per creation plus one for a token; availability follows the settings given |
| `Web.UrlFor` | web.py:228 | building a URL succeeds iff the endpoint is one the application defines: `index` and `settings` resolve, `home` does not |
| `Web.FinishReply` | web.py:218-235 | the intended replies: BadRequest and BadState are 400, CSRF and provider failures 403; a declined authorization is a flashed redirect home; a successful `finish` redirects to settings; no outcome raises |
| `Web.NotApprovedFailsAsWritten` | web.py:226-228 | as written, a declined authorization raises (the endpoint `home` is not defined) instead of redirecting home |
| `Web.ProviderFailureFailsAsWritten` | web.py:229-231 | as written, a provider failure raises while building the log message instead of aborting with 403 |
| `Web.AsWrittenAgreesOtherwise` | web.py:218-235 | for all other outcomes the handler as written replies as intended |
| `Web.App.DropboxCallback` | web.py:215-235 | the reply is the handler's as written: 400 for BadRequest and BadState, 403 for CSRF, an exception for NotApproved (`home`) and ProviderFailure (log message), a redirect to settings on success; only success stores `access_token`, with one save of that document only and enabled iff the token is non-empty; every other outcome leaves document and store untouched |
| `Web.App.DropboxLogout` | web.py:238-241 | `access_token` is deleted; the store changes (one save, Dropbox's document only) only if it was present; Dropbox is no longer enabled, and the user goes to settings |
| `Web.RequestTokenStored` | web.py:252-256 | after the authorize step, both `request_token` and `request_secret` hold the new pair, and no other field changes |
| `Web.App.TumblrAuth` | web.py:246-258 | a request-token pair is stored in both fields with two saves of Tumblr's document and no other, then the user is sent to the authorize URL; a failing request-token call changes nothing |
| `Web.AccessTokenStored` | web.py:280-283 | after the callback, `access_token` holds the exchanged list, neither request field is present, and no other field changes |
| `Web.App.TumblrCallback` | web.py:261-285 | with both `oauth_token` and `oauth_verifier` given, the stored pair and verifier are exchanged, the access token stored and both request fields deleted, and only Tumblr's document in the store changes; with either missing, or when the exchange raises, document and store are unchanged |
| `Web.TumblrLifecycle` | web.py:252-291 | authorize then callback leaves no request field behind, enables Tumblr iff the exchanged token is non-empty, and a later logout disables it |
| `Web.App.TumblrLogout` | web.py:288-291 | `access_token` is deleted; the store changes (one save, Tumblr's document only) only if it was present; Tumblr is no longer enabled, and the user goes to settings |

## Left out

- MongoDB connection, URL parsing and authentication (web.py:19-27): the collection is an in-memory map keyed by service id, standing in for the store's own document id.
- `Store.Service.Register`: does not follow a document whose `service_id` field was later changed through `self['service_id'] = …`. The model looks documents up by the service's own id. No code path does this.
- Failed saves: every `save` is taken to succeed, so persistence errors and their (absent) rollback are not modelled.
- Environment reads (web.py:70-75, 97-99): they are constructor parameters.
- `process` of Dropbox (`put_file`, web.py:85-88) and Tumblr (`post`, web.py:109-122): network calls. Their result for the request is an input.
- `Service.process` raising `NotImplementedError` (web.py:60-61): never reached, because every registered service overrides it.
- `dropbox_auth_flow`, `tumblr_auth_flow` (web.py:142-164) and the `dropbox_auth` route (web.py:209-212): library objects and a redirect to the flow's start URL. CSRF state lives in the web session, not in a service document. The finish/exchange results are inputs.
- `get_auth_flow()` (web.py:219) is not defined in the source. The outcome of `finish` is taken as given.
- The payload and its timestamp (web.py:184-190): clock and formatting. Each service's `process` outcome already accounts for the payload.
- The `index` and `settings` pages (web.py:174-176, 201-204), templates, `jsonify` and logging: rendering only. A reply records only its kind, its status or redirect target, and any flashed message.
- Dictionary iteration order of `services` (web.py:132-135, 192): unspecified in Python 2. It is a start-up parameter fixing one of the two orders.
- Concurrency: requests are handled one at a time. Nothing here is parallel or isolated per service.

## Findings

The route `Web.App.DropboxCallback` models the handler as written; `Web.FinishReply` is the intended reply for each outcome.

| source | as written | input that shows it | evidently intended | confidence | as-written member | corrected member |
|---|---|---|---|---|---|---|
| web.py:226-228 | `redirect(url_for('home'))` names an endpoint the application does not define, so building the URL raises | `finish` raises NotApprovedException (`Web.NotApprovedFailsAsWritten`) | flash the message and redirect to the home page, endpoint `index` | high, not executed | `Web.FinishReplyAsWritten` | `Web.FinishReply` |
| web.py:229-231 | `"Auth error" + e` adds an exception object to a string, which raises TypeError before `abort(403)` | `finish` raises ProviderException (`Web.ProviderFailureFailsAsWritten`) | log the error and abort with 403 | high, not executed | `Web.FinishReplyAsWritten` | `Web.FinishReply` |
