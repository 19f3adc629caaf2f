/**
 * The service configuration store: the persistent `services` collection and
 * the `Service` objects that each keep one document of it in memory and write
 * it back after every change.
 */
module Store {

  import opened Wrappers
  import opened Documents
  import opened Capability

  /**
   * The persistent collection, one document per service identifier (the
   * identifier stands in for the store's own document id), with the number of
   * save calls made so far.
   */
  class Collection {
    var docs: map<string, Document>
    var saves: nat

    constructor (docs: map<string, Document>)
      ensures this.docs == docs && saves == 0
    {
      this.docs := docs;
      saves := 0;
    }

    /** `find_one`: the document stored for `id`, if any. */
    method FindOne(id: string) returns (r: Option<Document>)
      ensures r.Some? <==> id in docs
      ensures r.Some? ==> r.value == docs[id]
    {
      r := if id in docs then Some(docs[id]) else None;
    }

    /** `save`: insert or replace the document of `id`. */
    method Save(id: string, doc: Document)
      modifies this
      ensures docs == old(docs)[id := doc]
      ensures saves == old(saves) + 1
    {
      docs := docs[id := doc];
      saves := saves + 1;
    }
  }

  /**
   * A service: static capability settings, and the in-memory copy `config` of
   * its document in `store`.
   */
  class Service {
    const id: string
    const kind: Kind
    const clientKey: Option<string>
    const clientSecret: Option<string>
    const hostname: Option<string>
    const store: Collection
    var config: Document

    /** The in-memory document is the one the store holds for this service. */
    ghost predicate Synced()
      reads this, store
    {
      id in store.docs && store.docs[id] == config
    }

    /** `DropboxService()`: register, then store the token configured in the environment, if any. */
    constructor DropboxService(store: Collection, clientKey: Option<string>, clientSecret: Option<string>,
                               envToken: Option<string>)
      modifies store
      ensures id == "dropbox" && kind == Dropbox && this.store == store
      ensures this.clientKey == clientKey && this.clientSecret == clientSecret && hostname == None
      ensures var registered := if id in old(store.docs) then old(store.docs)[id] else NewDocument(id);
              config == if Present(envToken) then Put(registered, AccessTokenKey, Text(envToken.value)) else registered
      ensures store.docs == old(store.docs)[id := config]
      ensures store.saves == old(store.saves) + (if id in old(store.docs) then 0 else 1)
                                              + (if Present(envToken) then 1 else 0)
      ensures Synced()
      ensures Present(envToken) ==> IsEnabled()
    {
      id := "dropbox";
      kind := Dropbox;
      this.clientKey := clientKey;
      this.clientSecret := clientSecret;
      hostname := None;
      this.store := store;
      config := map[];
      new;
      Register();
      if Present(envToken) {
        SetItem(AccessTokenKey, Text(envToken.value));
      }
    }

    /** `TumblrService()`: register. */
    constructor TumblrService(store: Collection, clientKey: Option<string>, clientSecret: Option<string>,
                              hostname: Option<string>)
      modifies store
      ensures id == "tumblr" && kind == Tumblr && this.store == store
      ensures this.clientKey == clientKey && this.clientSecret == clientSecret && this.hostname == hostname
      ensures config == if id in old(store.docs) then old(store.docs)[id] else NewDocument(id)
      ensures store.docs == old(store.docs)[id := config]
      ensures store.saves == old(store.saves) + (if id in old(store.docs) then 0 else 1)
      ensures Synced()
    {
      id := "tumblr";
      kind := Tumblr;
      this.clientKey := clientKey;
      this.clientSecret := clientSecret;
      this.hostname := hostname;
      this.store := store;
      config := map[];
      new;
      Register();
    }

    /** `JIFBOXService()`: register; this service only holds configuration. */
    constructor JifboxService(store: Collection)
      modifies store
      ensures id == "jifbox" && kind == Jifbox && this.store == store
      ensures config == if id in old(store.docs) then old(store.docs)[id] else NewDocument(id)
      ensures store.docs == old(store.docs)[id := config]
      ensures store.saves == old(store.saves) + (if id in old(store.docs) then 0 else 1)
      ensures Synced()
      ensures !IsAvailable() && !IsEnabled()
    {
      id := "jifbox";
      kind := Jifbox;
      clientKey := None;
      clientSecret := None;
      hostname := None;
      this.store := store;
      config := map[];
      new;
      Register();
    }

    /**
     * `register`: reuse the stored document of this service unchanged, or
     * create and save one holding only the identifier.
     */
    method Register()
      modifies this, store
      ensures id in old(store.docs) ==>
                config == old(store.docs)[id] && store.docs == old(store.docs) && store.saves == old(store.saves)
      ensures id !in old(store.docs) ==>
                config == NewDocument(id) && store.docs == old(store.docs)[id := config]
                && store.saves == old(store.saves) + 1
      ensures Synced()
    {
      var found := store.FindOne(id);
      if found.None? {
        store.Save(id, NewDocument(id));
        found := store.FindOne(id);
      }
      config := found.value;
    }

    /** `self[key]`: the stored value, or `None` for a key never set. */
    function Item(key: string): (r: Option<Value>)
      reads this
      ensures r.Some? <==> key in config
      ensures r.Some? ==> r.value == config[key]
    {
      Get(config, key)
    }

    /** `self[key] = value`: overwrite one field and save the document. */
    method SetItem(key: string, value: Value)
      modifies this, store
      ensures config == Put(old(config), key, value)
      ensures Item(key) == Some(value)
      ensures forall k :: k != key ==> Item(k) == old(Item(k))
      ensures store.docs == old(store.docs)[id := config]
      ensures store.saves == old(store.saves) + 1
      ensures Synced()
    {
      config := Put(config, key, value);
      store.Save(id, config);
    }

    /** `del self[key]`: remove a present field and save; an absent field changes nothing and saves nothing. */
    method DelItem(key: string)
      modifies this, store
      ensures key in old(config) ==>
                config == Remove(old(config), key) && store.docs == old(store.docs)[id := config]
                && store.saves == old(store.saves) + 1
      ensures key !in old(config) ==>
                config == old(config) && store.docs == old(store.docs) && store.saves == old(store.saves)
      ensures Item(key) == None
      ensures forall k :: k != key ==> Item(k) == old(Item(k))
      ensures old(Synced()) ==> Synced()
    {
      if key in config {
        config := Remove(config, key);
        store.Save(id, config);
      }
    }

    /** `is_available` of this service's variant. */
    function IsAvailable(): bool
    {
      Available(kind, clientKey, clientSecret, hostname)
    }

    /** `is_enabled` of this service's variant. */
    function IsEnabled(): bool
      reads this
    {
      Enabled(kind, config)
    }
  }
}
