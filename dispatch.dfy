/**
 * The broadcast rule of the `giffed` route, on values: the services are
 * visited in registry order; `process` is called only on a service that is
 * available and enabled; its metadata is recorded under the service's id only
 * when it is truthy; an exception raised by `process` is not caught, so it
 * ends the request with a server error and no later service is visited.
 */
module Dispatch {

  import opened Wrappers

  /** The JSON object a provider returns from `process`. */
  type Meta = map<string, string>

  /** What the loop reads of one registered service. */
  datatype View = View(sid: string, available: bool, enabled: bool)

  /** The outcome of one `process` call: a (possibly empty or `None`) result, or an exception. */
  datatype ProcessResult = Returned(meta: Option<Meta>) | Raised

  /** The reply of the route: the `active_services` object, or a server error. */
  datatype Response = Json(active: map<string, Meta>) | ServerError

  predicate Qualifies(v: View)
  {
    v.available && v.enabled
  }

  /** `if meta:` — `None` and the empty object are false. */
  predicate Records(r: ProcessResult)
  {
    r.Returned? && r.meta.Some? && r.meta.value != map[]
  }

  /** No identifier is registered twice. */
  predicate DistinctIds(views: seq<View>)
  {
    forall i, j :: 0 <= i < j < |views| ==> views[i].sid != views[j].sid
  }

  /** The response after the loop has visited `views`, in order. */
  function Broadcast(views: seq<View>, outcome: string -> ProcessResult): Response
    decreases |views|
  {
    if views == [] then Json(map[])
    else
      var v := views[|views| - 1];
      match Broadcast(views[..|views| - 1], outcome)
      case ServerError => ServerError
      case Json(active) =>
        if !Qualifies(v) then Json(active)
        else if outcome(v.sid).Raised? then ServerError
        else if Records(outcome(v.sid)) then Json(active[v.sid := outcome(v.sid).meta.value])
        else Json(active)
  }

  /** The identifiers whose `process` was called while the loop visited `views`, in call order. */
  function Invoked(views: seq<View>, outcome: string -> ProcessResult): seq<string>
    decreases |views|
  {
    if views == [] then []
    else
      var prefix := views[..|views| - 1];
      var v := views[|views| - 1];
      if Broadcast(prefix, outcome).ServerError? || !Qualifies(v) then Invoked(prefix, outcome)
      else Invoked(prefix, outcome) + [v.sid]
  }

  /** The identifiers a successful broadcast reports. */
  function Selected(views: seq<View>, outcome: string -> ProcessResult): set<string>
  {
    set v | v in views && Qualifies(v) && Records(outcome(v.sid)) :: v.sid
  }

  /** Once the loop has failed, the rest of the registry changes neither the response nor the calls made. */
  lemma {:induction false} ErrorSticks(views: seq<View>, outcome: string -> ProcessResult, k: nat)
    requires k <= |views|
    requires Broadcast(views[..k], outcome).ServerError?
    ensures Broadcast(views, outcome).ServerError?
    ensures Invoked(views, outcome) == Invoked(views[..k], outcome)
  {
    if k < |views| {
      var prefix := views[..|views| - 1];
      assert prefix[..k] == views[..k];
      ErrorSticks(prefix, outcome, k);
    } else {
      assert views[..k] == views;
    }
  }

  /**
   * A successful broadcast reports exactly the services that are available,
   * enabled and returned truthy metadata, each with that metadata.
   */
  lemma {:induction false} BroadcastActive(views: seq<View>, outcome: string -> ProcessResult)
    ensures var r := Broadcast(views, outcome);
            r.Json? ==>
              && r.active.Keys == Selected(views, outcome)
              && forall sid :: sid in r.active ==> outcome(sid) == Returned(Some(r.active[sid]))
  {
    if views != [] {
      var prefix := views[..|views| - 1];
      var v := views[|views| - 1];
      assert views == prefix + [v];
      BroadcastActive(prefix, outcome);
      assert forall w :: w in views <==> w in prefix || w == v;
      if Qualifies(v) && Records(outcome(v.sid)) {
        assert Selected(views, outcome) == Selected(prefix, outcome) + {v.sid};
      } else {
        assert Selected(views, outcome) == Selected(prefix, outcome);
      }
    }
  }

  /** The broadcast fails exactly when some available and enabled service raised. */
  lemma {:induction false} BroadcastFails(views: seq<View>, outcome: string -> ProcessResult)
    ensures Broadcast(views, outcome).ServerError?
        <==> exists v :: v in views && Qualifies(v) && outcome(v.sid).Raised?
  {
    if views != [] {
      var prefix := views[..|views| - 1];
      var v := views[|views| - 1];
      assert views == prefix + [v];
      BroadcastFails(prefix, outcome);
      assert forall w :: w in views <==> w in prefix || w == v;
    }
  }

  /**
   * `process` is called only on available and enabled services, and, when the
   * broadcast succeeds, on every one of them, once.
   */
  lemma {:induction false} InvokedExactly(views: seq<View>, outcome: string -> ProcessResult)
    requires DistinctIds(views)
    ensures forall v :: v in views && !Qualifies(v) ==> v.sid !in Invoked(views, outcome)
    ensures forall sid :: sid in Invoked(views, outcome) ==> exists v :: v in views && v.sid == sid && Qualifies(v)
    ensures Broadcast(views, outcome).Json? ==>
              forall v :: v in views && Qualifies(v) ==> v.sid in Invoked(views, outcome)
    ensures forall i, j :: 0 <= i < j < |Invoked(views, outcome)| ==>
              Invoked(views, outcome)[i] != Invoked(views, outcome)[j]
  {
    if views != [] {
      var prefix := views[..|views| - 1];
      var v := views[|views| - 1];
      assert views == prefix + [v];
      assert DistinctIds(prefix);
      InvokedExactly(prefix, outcome);
      assert forall w :: w in views <==> w in prefix || w == v;
      assert forall w :: w in prefix ==> w.sid != v.sid;
      var before := Invoked(prefix, outcome);
      assert v.sid !in before;
      if Invoked(views, outcome) != before {
        assert Invoked(views, outcome) == before + [v.sid];
        forall i, j | 0 <= i < j < |before| + 1
          ensures (before + [v.sid])[i] != (before + [v.sid])[j]
        {
          if j == |before| {
            assert (before + [v.sid])[i] == before[i] && before[i] in before;
          }
        }
      }
    }
  }

  /**
   * Of a registry where A is available and enabled, B is available but not
   * enabled and C is unavailable, only A is reported, and only A was asked.
   */
  lemma OnlyReadyServiceReported(meta: Meta)
    requires meta != map[]
    ensures var views := [View("A", true, true), View("B", true, false), View("C", false, true)];
            var outcome := (sid: string) => Returned(Some(meta));
            Broadcast(views, outcome) == Json(map["A" := meta]) && Invoked(views, outcome) == ["A"]
  {
    var views := [View("A", true, true), View("B", true, false), View("C", false, true)];
    var outcome := (sid: string) => Returned(Some(meta));
    var one, two := [View("A", true, true)], [View("A", true, true), View("B", true, false)];
    assert one[..0] == [] && two[..1] == one && views[..2] == two;
    assert Broadcast(one, outcome) == Json(map["A" := meta]) && Invoked(one, outcome) == ["A"];
    assert Broadcast(two, outcome) == Json(map["A" := meta]) && Invoked(two, outcome) == ["A"];
  }
}
