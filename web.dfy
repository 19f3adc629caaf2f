/**
 * The routes of the web application that read or change service state: the
 * broadcast route `giffed`, the Dropbox OAuth2 callback, the Tumblr OAuth1
 * authorize and callback steps, and the two logout routes.
 */
module Web {

  import opened Wrappers
  import opened Documents
  import opened Capability
  import opened Store
  import opened Dispatch

  /** Where a redirect points: one of the application's own endpoints, or a third-party URL. */
  datatype Location = Endpoint(name: string) | External(url: string)

  /** The reply of a route: a redirect (with an optional flashed message), an abort with a status, or an uncaught exception. */
  datatype Reply = Redirect(location: Location, flash: Option<string>) | Abort(status: nat) | Failed

  /** The endpoints the application defines (Flask's static endpoint included). */
  const Endpoints: set<string> :=
    {"static", "index", "giffed", "settings", "dropbox_auth", "dropbox_callback", "dropbox_logout",
     "tumblr_auth", "tumblr_callback", "tumblr_logout"}

  const NotApprovedMessage: string := "Not approved?  Why not"

  /** `url_for(name)`: building a URL for an undefined endpoint raises. */
  function UrlFor(name: string): (r: Option<Location>)
    ensures r.Some? <==> name in Endpoints
    ensures r.Some? ==> r.value == Endpoint(name)
    ensures name == "home" ==> r.None?
    ensures name == "index" || name == "settings" ==> r == Some(Endpoint(name))
  {
    if name in Endpoints then Some(Endpoint(name)) else None
  }

  /** The outcome of the OAuth2 flow's `finish`: the token it returns, or the exception it raises. */
  datatype FinishOutcome =
    | Finished(accessToken: string, userId: string, urlState: Option<string>)
    | BadRequest
    | BadState
    | Csrf
    | NotApproved
    | ProviderFailure

  /**
   * The reply of the Dropbox callback for each outcome of `finish`: malformed
   * requests and stale state are 400, CSRF and provider failures 403, a
   * declined authorization is flashed and sent home, and success goes to the
   * settings page.
   */
  function FinishReply(outcome: FinishOutcome): (r: Reply)
    ensures r == Abort(400) <==> outcome.BadRequest? || outcome.BadState?
    ensures r == Abort(403) <==> outcome.Csrf? || outcome.ProviderFailure?
    ensures r == Redirect(Endpoint("index"), Some(NotApprovedMessage)) <==> outcome.NotApproved?
    ensures r == Redirect(Endpoint("settings"), None) <==> outcome.Finished?
    ensures r != Failed
  {
    match outcome
    case BadRequest => Abort(400)
    case BadState => Abort(400)
    case Csrf => Abort(403)
    case NotApproved => Redirect(Endpoint("index"), Some(NotApprovedMessage))
    case ProviderFailure => Abort(403)
    case Finished(_, _, _) => Redirect(Endpoint("settings"), None)
  }

  /**
   * The same reply as the handler is written: the declined branch redirects to
   * an endpoint named `home`, which the application does not define, and the
   * provider-failure branch builds its log message by adding an exception to a
   * string; both raise before replying.
   */
  function FinishReplyAsWritten(outcome: FinishOutcome): Reply
  {
    match outcome
    case BadRequest => Abort(400)
    case BadState => Abort(400)
    case Csrf => Abort(403)
    case NotApproved =>
      (match UrlFor("home")
       case Some(home) => Redirect(home, Some(NotApprovedMessage))
       case None => Failed)
    case ProviderFailure => Failed
    case Finished(_, _, _) => Redirect(Endpoint("settings"), None)
  }

  /** A declined authorization ends in an exception as written, instead of the flashed redirect. */
  lemma NotApprovedFailsAsWritten()
    ensures FinishReplyAsWritten(NotApproved) == Failed
    ensures FinishReply(NotApproved) == Redirect(Endpoint("index"), Some(NotApprovedMessage))
  {
  }

  /** A provider failure ends in an exception as written, instead of a 403. */
  lemma ProviderFailureFailsAsWritten()
    ensures FinishReplyAsWritten(ProviderFailure) == Failed
    ensures FinishReply(ProviderFailure) == Abort(403)
  {
  }

  /** On every other outcome the handler as written already replies as intended. */
  lemma AsWrittenAgreesOtherwise(outcome: FinishOutcome)
    requires !outcome.NotApproved? && !outcome.ProviderFailure?
    ensures FinishReplyAsWritten(outcome) == FinishReply(outcome)
  {
  }

  /** The Tumblr document once `tumblr_auth` has stored the request token pair. */
  function RequestTokenStored(doc: Document, token: string, secret: string): (r: Document)
    ensures Get(r, RequestTokenKey) == Some(Text(token))
    ensures Get(r, RequestSecretKey) == Some(Text(secret))
    ensures forall k :: k != RequestTokenKey && k != RequestSecretKey ==> Get(r, k) == Get(doc, k)
  {
    Put(Put(doc, RequestTokenKey, Text(token)), RequestSecretKey, Text(secret))
  }

  /**
   * The Tumblr document once `tumblr_callback` has stored the access token
   * and consumed the request token pair.
   */
  function AccessTokenStored(doc: Document, access: seq<string>): (r: Document)
    ensures Get(r, AccessTokenKey) == Some(List(access))
    ensures RequestTokenKey !in r && RequestSecretKey !in r
    ensures forall k :: k != AccessTokenKey && k != RequestTokenKey && k != RequestSecretKey ==>
              Get(r, k) == Get(doc, k)
    ensures r.Keys == doc.Keys + {AccessTokenKey} - {RequestTokenKey, RequestSecretKey}
  {
    Remove(Remove(Put(doc, AccessTokenKey, List(access)), RequestTokenKey), RequestSecretKey)
  }

  /**
   * A whole Tumblr authorization: after authorize and callback no request
   * field is left, the service is enabled exactly when the exchanged token is
   * non-empty, and a logout afterwards disables it again.
   */
  lemma TumblrLifecycle(doc: Document, token: string, secret: string, access: seq<string>)
    ensures var done := AccessTokenStored(RequestTokenStored(doc, token, secret), access);
            && done.Keys == doc.Keys + {AccessTokenKey} - {RequestTokenKey, RequestSecretKey}
            && (Enabled(Tumblr, done) <==> access != [])
            && !Enabled(Tumblr, Remove(done, AccessTokenKey))
  {
  }

  /** What the broadcast loop reads of one registry entry. */
  function ViewOf(entry: (string, Service)): View
    reads entry.1
  {
    View(entry.0, entry.1.IsAvailable(), entry.1.IsEnabled())
  }

  /** The application: the shared store and the `services` registry. */
  class App {
    const store: Collection
    const dropbox: Service
    const tumblr: Service
    /** `services.items()`, in the dictionary's iteration order. */
    const items: seq<(string, Service)>

    ghost predicate Valid()
    {
      && dropbox.id == "dropbox" && dropbox.kind == Dropbox && dropbox.store == store
      && tumblr.id == "tumblr" && tumblr.kind == Tumblr && tumblr.store == store
      && (items == [("dropbox", dropbox), ("tumblr", tumblr)] || items == [("tumblr", tumblr), ("dropbox", dropbox)])
    }

    /** Both services' in-memory documents are the stored ones. */
    ghost predicate Synced()
      requires Valid()
      reads dropbox, tumblr, store
    {
      dropbox.Synced() && tumblr.Synced()
    }

    /** Module start-up: build the registry from the environment settings given. */
    constructor (store: Collection, dropboxKey: Option<string>, dropboxSecret: Option<string>,
                 dropboxToken: Option<string>, tumblrKey: Option<string>, tumblrSecret: Option<string>,
                 tumblrHostname: Option<string>, dropboxFirst: bool)
      modifies store
      ensures Valid() && Synced() && this.store == store
      ensures fresh(dropbox) && fresh(tumblr)
      ensures dropbox.IsAvailable() <==> Present(dropboxKey) && Present(dropboxSecret)
      ensures tumblr.IsAvailable() <==> Present(tumblrKey) && Present(tumblrSecret) && Present(tumblrHostname)
      ensures Present(dropboxToken) ==> dropbox.IsEnabled()
      ensures var registered := if "dropbox" in old(store.docs) then old(store.docs)["dropbox"] else NewDocument("dropbox");
              dropbox.config == if Present(dropboxToken) then Put(registered, AccessTokenKey, Text(dropboxToken.value))
                                else registered
      ensures tumblr.config == if "tumblr" in old(store.docs) then old(store.docs)["tumblr"] else NewDocument("tumblr")
      ensures store.docs == old(store.docs)["dropbox" := dropbox.config]["tumblr" := tumblr.config]
      ensures store.saves == old(store.saves)
                + (if "dropbox" in old(store.docs) then 0 else 1)
                + (if Present(dropboxToken) then 1 else 0)
                + (if "tumblr" in old(store.docs) then 0 else 1)
      ensures store.docs.Keys == old(store.docs.Keys) + {"dropbox", "tumblr"}
    {
      var d := new Service.DropboxService(store, dropboxKey, dropboxSecret, dropboxToken);
      var t := new Service.TumblrService(store, tumblrKey, tumblrSecret, tumblrHostname);
      this.store := store;
      dropbox := d;
      tumblr := t;
      items := if dropboxFirst then [("dropbox", d), ("tumblr", t)] else [("tumblr", t), ("dropbox", d)];
    }

    /** The registry as the broadcast loop sees it. */
    function Views(): (vs: seq<View>)
      requires Valid()
      reads dropbox, tumblr
      ensures |vs| == |items| && DistinctIds(vs)
      ensures forall i :: 0 <= i < |vs| ==> vs[i] == ViewOf(items[i])
    {
      [ViewOf(items[0]), ViewOf(items[1])]
    }

    /**
     * `giffed`: call `process` on every available and enabled service, in
     * registry order, and report the truthy results by service id. `outcome`
     * gives what each service's `process` does with this request's payload.
     */
    method Giffed(outcome: string -> ProcessResult) returns (resp: Response, invoked: seq<string>)
      requires Valid()
      ensures resp == Broadcast(Views(), outcome)
      ensures invoked == Invoked(Views(), outcome)
      ensures resp.Json? ==> resp.active.Keys == Selected(Views(), outcome)
    {
      resp := Json(map[]);
      invoked := [];
      var i := 0;
      while i < |items| && resp.Json?
        invariant 0 <= i <= |items|
        invariant resp == Broadcast(Views()[..i], outcome)
        invariant invoked == Invoked(Views()[..i], outcome)
      {
        var sid, service := items[i].0, items[i].1;
        assert Views()[..i + 1][..i] == Views()[..i];
        if service.IsAvailable() && service.IsEnabled() {
          invoked := invoked + [sid];
          var result := outcome(sid);
          if result.Raised? {
            resp := ServerError;
          } else if result.meta.Some? && result.meta.value != map[] {
            resp := Json(resp.active[sid := result.meta.value]);
          }
        }
        i := i + 1;
      }
      if resp.ServerError? {
        ErrorSticks(Views(), outcome, i);
      } else {
        assert Views()[..i] == Views();
      }
      BroadcastActive(Views(), outcome);
    }

    /**
     * `dropbox_callback`: reply per the outcome of `finish` as the handler is
     * written, storing the token only on success. A declined authorization and
     * a provider failure raise inside their handlers (see `FinishReplyAsWritten`).
     */
    method DropboxCallback(outcome: FinishOutcome) returns (reply: Reply)
      requires Valid()
      modifies dropbox, store
      ensures reply == FinishReplyAsWritten(outcome)
      ensures outcome.Finished? ==>
                && dropbox.config == Put(old(dropbox.config), AccessTokenKey, Text(outcome.accessToken))
                && store.docs == old(store.docs)[dropbox.id := dropbox.config]
                && store.saves == old(store.saves) + 1
                && (dropbox.IsEnabled() <==> outcome.accessToken != "")
      ensures !outcome.Finished? ==>
                dropbox.config == old(dropbox.config) && store.docs == old(store.docs) && store.saves == old(store.saves)
      ensures old(Synced()) ==> Synced()
    {
      match outcome
      case Finished(token, _, _) =>
        dropbox.SetItem(AccessTokenKey, Text(token));
        reply := Redirect(Endpoint("settings"), None);
      case BadRequest =>
        reply := Abort(400);
      case BadState =>
        reply := Abort(400);
      case Csrf =>
        reply := Abort(403);
      case NotApproved =>
        // the message is flashed, then building the URL of `home` raises: UrlFor("home") is None
        reply := Failed;
      case ProviderFailure =>
        // building the log message raises before the abort
        reply := Failed;
    }

    /** `dropbox_logout`: delete the access token and go to the settings page. */
    method DropboxLogout() returns (reply: Reply)
      requires Valid()
      modifies dropbox, store
      ensures reply == Redirect(Endpoint("settings"), None)
      ensures dropbox.config == Remove(old(dropbox.config), AccessTokenKey)
      ensures store.docs == if AccessTokenKey in old(dropbox.config) then old(store.docs)[dropbox.id := dropbox.config]
                            else old(store.docs)
      ensures !dropbox.IsEnabled()
      ensures store.saves == old(store.saves) + (if AccessTokenKey in old(dropbox.config) then 1 else 0)
      ensures old(Synced()) ==> Synced()
    {
      dropbox.DelItem(AccessTokenKey);
      reply := Redirect(Endpoint("settings"), None);
    }

    /**
     * `tumblr_auth`: obtain a request token pair, store both halves and send
     * the user to the authorize URL. `requestPair` is what the request-token
     * call returns (`None` when it raises).
     */
    method TumblrAuth(requestPair: Option<(string, string)>, authorizeUrl: string) returns (reply: Reply)
      requires Valid()
      modifies tumblr, store
      ensures requestPair.None? ==>
                reply == Failed && tumblr.config == old(tumblr.config)
                && store.docs == old(store.docs) && store.saves == old(store.saves)
      ensures requestPair.Some? ==>
                && reply == Redirect(External(authorizeUrl), None)
                && tumblr.config == RequestTokenStored(old(tumblr.config), requestPair.value.0, requestPair.value.1)
                && store.docs == old(store.docs)[tumblr.id := tumblr.config]
                && store.saves == old(store.saves) + 2
                && tumblr.Synced()
      ensures old(Synced()) ==> Synced()
    {
      if requestPair.None? {
        reply := Failed;
        return;
      }
      var (token, secret) := requestPair.value;
      tumblr.SetItem(RequestTokenKey, Text(token));
      tumblr.SetItem(RequestSecretKey, Text(secret));
      reply := Redirect(External(authorizeUrl), None);
    }

    /**
     * `tumblr_callback`: when both `oauth_token` and `oauth_verifier` are
     * given, exchange the stored request pair and the verifier for an access
     * token, store it and delete the request pair; otherwise change nothing.
     * `exchange` is the access-token call (`None` when it raises).
     */
    method TumblrCallback(oauthToken: Option<string>, oauthVerifier: Option<string>,
                          exchange: (Option<Value>, Option<Value>, string) -> Option<seq<string>>)
      returns (reply: Reply)
      requires Valid()
      modifies tumblr, store
      ensures var asked := Present(oauthToken) && Present(oauthVerifier);
              var access := if asked
                            then exchange(old(Get(tumblr.config, RequestTokenKey)), old(Get(tumblr.config, RequestSecretKey)),
                                          oauthVerifier.value)
                            else None;
              && (!asked ==> reply == Redirect(Endpoint("settings"), None))
              && (asked && access.None? ==> reply == Failed)
              && (access.None? ==>
                    tumblr.config == old(tumblr.config) && store.docs == old(store.docs) && store.saves == old(store.saves))
              && (access.Some? ==>
                    && reply == Redirect(Endpoint("settings"), None)
                    && tumblr.config == AccessTokenStored(old(tumblr.config), access.value)
                    && store.docs == old(store.docs)[tumblr.id := tumblr.config]
                    && (tumblr.IsEnabled() <==> access.value != [])
                    && store.saves == old(store.saves) + 1
                         + (if RequestTokenKey in old(tumblr.config) then 1 else 0)
                         + (if RequestSecretKey in old(tumblr.config) then 1 else 0)
                    && tumblr.Synced())
      ensures old(Synced()) ==> Synced()
    {
      if !(Present(oauthToken) && Present(oauthVerifier)) {
        reply := Redirect(Endpoint("settings"), None);
        return;
      }
      var access := exchange(tumblr.Item(RequestTokenKey), tumblr.Item(RequestSecretKey), oauthVerifier.value);
      if access.None? {
        reply := Failed;
        return;
      }
      tumblr.SetItem(AccessTokenKey, List(access.value));
      tumblr.DelItem(RequestTokenKey);
      tumblr.DelItem(RequestSecretKey);
      reply := Redirect(Endpoint("settings"), None);
    }

    /** `tumblr_logout`: delete the access token and go to the settings page. */
    method TumblrLogout() returns (reply: Reply)
      requires Valid()
      modifies tumblr, store
      ensures reply == Redirect(Endpoint("settings"), None)
      ensures tumblr.config == Remove(old(tumblr.config), AccessTokenKey)
      ensures store.docs == if AccessTokenKey in old(tumblr.config) then old(store.docs)[tumblr.id := tumblr.config]
                            else old(store.docs)
      ensures !tumblr.IsEnabled()
      ensures store.saves == old(store.saves) + (if AccessTokenKey in old(tumblr.config) then 1 else 0)
      ensures old(Synced()) ==> Synced()
    {
      tumblr.DelItem(AccessTokenKey);
      reply := Redirect(Endpoint("settings"), None);
    }
  }
}
