/**
 * The capability predicates of the three service variants: availability is a
 * fact about the deployment settings, enablement a fact about the stored
 * access token.
 */
module Capability {

  import opened Wrappers
  import opened Documents

  datatype Kind = Dropbox | Tumblr | Jifbox

  /** Python truthiness of an environment setting: unset or empty is false. */
  predicate Present(setting: Option<string>)
  {
    setting.Some? && setting.value != ""
  }

  /** `is_available`: client key and secret (and, for Tumblr, a blog hostname) are configured. */
  predicate Available(kind: Kind, clientKey: Option<string>, clientSecret: Option<string>, hostname: Option<string>)
  {
    match kind
    case Dropbox => Present(clientKey) && Present(clientSecret)
    case Tumblr => Present(clientKey) && Present(clientSecret) && Present(hostname)
    case Jifbox => false
  }

  /** `is_enabled`: the stored access token is truthy; the configuration-only service never is. */
  predicate Enabled(kind: Kind, doc: Document)
  {
    kind != Jifbox && Truthy(Get(doc, AccessTokenKey))
  }

  /** The configuration-only service is neither available nor enabled, whatever is configured or stored. */
  lemma JifboxInert(clientKey: Option<string>, clientSecret: Option<string>, hostname: Option<string>, doc: Document)
    ensures !Available(Jifbox, clientKey, clientSecret, hostname)
    ensures !Enabled(Jifbox, doc)
  {
  }

  /** Tumblr needs everything Dropbox needs, and a hostname besides. */
  lemma TumblrNeedsHostname(clientKey: Option<string>, clientSecret: Option<string>, hostname: Option<string>)
    ensures Available(Tumblr, clientKey, clientSecret, hostname)
        <==> Available(Dropbox, clientKey, clientSecret, hostname) && Present(hostname)
  {
  }

  /** The access token field is the only field that decides enablement. */
  lemma EnabledOnlyByAccessToken(kind: Kind, d1: Document, d2: Document)
    requires Get(d1, AccessTokenKey) == Get(d2, AccessTokenKey)
    ensures Enabled(kind, d1) == Enabled(kind, d2)
  {
  }

  /** Storing a token enables a real service exactly when the token is truthy. */
  lemma EnabledAfterPut(kind: Kind, doc: Document, token: Value)
    ensures Enabled(kind, Put(doc, AccessTokenKey, token)) <==> kind != Jifbox && Truthy(Some(token))
  {
  }

  /** Removing the access token disables every service. */
  lemma DisabledAfterRemove(kind: Kind, doc: Document)
    ensures !Enabled(kind, Remove(doc, AccessTokenKey))
  {
  }
}
