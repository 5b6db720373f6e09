/** Trigger lists: building them from a template's "trigger" array
    (SetupTriggers under JSON_Iterate) and subscribing them with the variable
    server (SetupTriggerNotification, SetupTriggerNotifications). */
module Triggers {
  import opened Types
  import opened Status

  /** A trigger array element SetupTriggers can turn into a trigger. */
  predicate IsName(node: TriggerNode)
  {
    node.StrNode? && node.str.Some?
  }

  datatype Built = Built(status: int, list: seq<TriggerVar>)

  /** SetupTriggers: prepend a trigger for a non-null string node; `alloc` is
      whether calloc succeeded. */
  function SetupTriggers(node: TriggerNode, list: seq<TriggerVar>, alloc: bool): (r: Built)
    ensures r.status == EOK <==> IsName(node) && alloc
    ensures r.status == EINVAL <==> !IsName(node)
    ensures r.status == ENOMEM <==> IsName(node) && !alloc
    ensures r.status == EOK ==> r.list == [TriggerVar(VAR_INVALID, node.str)] + list
    ensures r.status != EOK ==> r.list == list
  {
    if !IsName(node) then Built(EINVAL, list)
    else if !alloc then Built(ENOMEM, list)
    else Built(EOK, [TriggerVar(VAR_INVALID, node.str)] + list)
  }

  /** The list left behind by SetupTriggers applied to each node in turn,
      starting from the empty list; the j-th calloc answers `alloc(j)`. */
  function Chain(nodes: seq<TriggerNode>, alloc: nat -> bool): seq<TriggerVar>
  {
    if nodes == [] then []
    else SetupTriggers(nodes[|nodes| - 1], Chain(nodes[..|nodes| - 1], alloc), alloc(|nodes| - 1)).list
  }

  /** The statuses those calls return, in order. */
  function TriggerStatuses(nodes: seq<TriggerNode>, alloc: nat -> bool): (s: seq<int>)
    ensures |s| == |nodes|
  {
    seq(|nodes|, i requires 0 <= i < |nodes| => SetupTriggers(nodes[i], [], alloc(i)).status)
  }

  /** Reference definition: the triggers the array asks for, in array order. */
  function Accepted(nodes: seq<TriggerNode>, alloc: nat -> bool): seq<TriggerVar>
  {
    if nodes == [] then []
    else
      var n := |nodes| - 1;
      Accepted(nodes[..n], alloc) + if IsName(nodes[n]) && alloc(n) then [TriggerVar(VAR_INVALID, nodes[n].str)] else []
  }

  function Reverse<T>(s: seq<T>): (r: seq<T>)
    ensures |r| == |s|
  {
    if s == [] then [] else Reverse(s[1..]) + [s[0]]
  }

  lemma {:induction false} ReverseSnoc<T>(s: seq<T>, x: T)
    ensures Reverse(s + [x]) == [x] + Reverse(s)
  {
    if s != [] {
      assert (s + [x])[1..] == s[1..] + [x];
      ReverseSnoc(s[1..], x);
    }
  }

  /** Because every new trigger is prepended, the list holds the accepted
      names in the reverse of their order in the array, every handle still
      unresolved. */
  lemma {:induction false} ChainIsReversed(nodes: seq<TriggerNode>, alloc: nat -> bool)
    ensures Chain(nodes, alloc) == Reverse(Accepted(nodes, alloc))
    ensures forall t | t in Chain(nodes, alloc) :: t.hVar == VAR_INVALID && t.name.Some?
  {
    if nodes != [] {
      var n := |nodes| - 1;
      ChainIsReversed(nodes[..n], alloc);
      if IsName(nodes[n]) && alloc(n) {
        ReverseSnoc(Accepted(nodes[..n], alloc), TriggerVar(VAR_INVALID, nodes[n].str));
      } else {
        assert Accepted(nodes, alloc) == Accepted(nodes[..n], alloc) + [] == Accepted(nodes[..n], alloc);
        assert Chain(nodes, alloc) == Chain(nodes[..n], alloc);
      }
    }
  }

  /** JSON_Iterate over a "trigger" array with SetupTriggers as the callback:
      every element is visited in order and the last non-EOK status is kept;
      a missing array gives EINVAL and no triggers. */
  method IterateTriggers(nodes: Option<seq<TriggerNode>>, alloc: nat -> bool) returns (status: int, list: seq<TriggerVar>)
    ensures nodes.None? ==> status == EINVAL && list == []
    ensures nodes.Some? ==> status == Aggregate(TriggerStatuses(nodes.value, alloc))
    ensures nodes.Some? ==> list == Chain(nodes.value, alloc)
  {
    status, list := EINVAL, [];
    if nodes.Some? {
      var ns := nodes.value;
      status := EOK;
      var j := 0;
      while j < |ns|
        invariant 0 <= j <= |ns|
        invariant status == Aggregate(TriggerStatuses(ns, alloc)[..j])
        invariant list == Chain(ns[..j], alloc)
      {
        var b := SetupTriggers(ns[j], list, alloc(j));
        assert Aggregate(TriggerStatuses(ns, alloc)[..j + 1]) == if b.status != EOK then b.status else status by {
          ghost var s := TriggerStatuses(ns, alloc);
          assert s[..j + 1] == s[..j] + [b.status];
          AggregateStep(s[..j], b.status);
        }
        assert b.list == Chain(ns[..j + 1], alloc) by {
          assert ns[..j + 1][..j] == ns[..j];
        }
        list := b.list;
        if b.status != EOK {
          status := b.status;
        }
        j := j + 1;
      }
      assert ns[..j] == ns;
      assert TriggerStatuses(ns, alloc)[..j] == TriggerStatuses(ns, alloc);
    }
  }

  datatype Subscribed = Subscribed(status: int, trigger: TriggerVar, requests: seq<int>)

  /** SetupTriggerNotification: resolve the name, cache the handle, and ask for
      modify notifications when it resolved. `requests` are the handles for
      which VAR_Notify was called. */
  function SetupTriggerNotification(server: Option<VarServer>, t: TriggerVar): (r: Subscribed)
    ensures r.trigger.name == t.name
    ensures server.None? || t.name.None? ==> r == Subscribed(EINVAL, t, [])
    ensures server.Some? && t.name.Some? ==> r.trigger.hVar == server.value.lookup(t.name.value)
    ensures server.Some? && t.name.Some? && r.trigger.hVar == VAR_INVALID ==>
              r.status == ENOENT && r.requests == []
    ensures server.Some? && t.name.Some? && r.trigger.hVar != VAR_INVALID ==>
              r.status == server.value.notify(r.trigger.hVar) && r.requests == [r.trigger.hVar]
  {
    if server.None? || t.name.None? then Subscribed(EINVAL, t, [])
    else
      var h := server.value.lookup(t.name.value);
      if h != VAR_INVALID then Subscribed(server.value.notify(h), t.(hVar := h), [h])
      else Subscribed(ENOENT, t.(hVar := h), [])
  }

  /** The statuses SetupTriggerNotification returns for each trigger of the list. */
  function NotifyStatuses(server: Option<VarServer>, trigs: seq<TriggerVar>): (s: seq<int>)
    ensures |s| == |trigs|
  {
    seq(|trigs|, i requires 0 <= i < |trigs| => SetupTriggerNotification(server, trigs[i]).status)
  }

  /** The notify requests made for the list, in list order. */
  function Requests(server: Option<VarServer>, trigs: seq<TriggerVar>): seq<int>
  {
    if trigs == [] then []
    else Requests(server, trigs[..|trigs| - 1]) + SetupTriggerNotification(server, trigs[|trigs| - 1]).requests
  }

  /** Exactly the resolved handles are subscribed, each once per trigger. */
  lemma {:induction false} RequestsAreResolved(server: VarServer, trigs: seq<TriggerVar>)
    requires forall i | 0 <= i < |trigs| :: trigs[i].name.Some?
    ensures forall h :: h in Requests(Some(server), trigs) <==>
              h != VAR_INVALID && exists i | 0 <= i < |trigs| :: server.lookup(trigs[i].name.value) == h
  {
    if trigs != [] {
      var n := |trigs| - 1;
      RequestsAreResolved(server, trigs[..n]);
      forall h
        ensures h in Requests(Some(server), trigs) <==>
                h != VAR_INVALID && exists i | 0 <= i < |trigs| :: server.lookup(trigs[i].name.value) == h
      {
        if h != VAR_INVALID && exists i | 0 <= i < |trigs| :: server.lookup(trigs[i].name.value) == h {
          var i :| 0 <= i < |trigs| && server.lookup(trigs[i].name.value) == h;
          if i < n {
            assert trigs[..n][i] == trigs[i];
          }
        }
      }
    }
  }

  /** SetupTriggerNotifications: walk the whole list, subscribing each trigger,
      and keep the last failure. (The C function computes this status but
      never returns it; its only caller ignores the value.) */
  method SetupTriggerNotifications(server: Option<VarServer>, trigs: seq<TriggerVar>)
    returns (status: int, subscribed: seq<TriggerVar>, requests: seq<int>)
    ensures server.None? || trigs == [] ==> status == EINVAL && subscribed == trigs && requests == []
    ensures server.Some? && trigs != [] ==> status == Aggregate(NotifyStatuses(server, trigs))
    ensures server.Some? && trigs != [] ==> requests == Requests(server, trigs)
    ensures |subscribed| == |trigs|
    ensures server.Some? ==>
              forall i | 0 <= i < |trigs| :: subscribed[i] == SetupTriggerNotification(server, trigs[i]).trigger
  {
    status, subscribed, requests := EINVAL, trigs, [];
    if server.Some? && trigs != [] {
      status := EOK;
      var j := 0;
      while j < |trigs|
        invariant 0 <= j <= |trigs|
        invariant |subscribed| == |trigs|
        invariant forall i | 0 <= i < j :: subscribed[i] == SetupTriggerNotification(server, trigs[i]).trigger
        invariant forall i | j <= i < |trigs| :: subscribed[i] == trigs[i]
        invariant status == Aggregate(NotifyStatuses(server, trigs)[..j])
        invariant requests == Requests(server, trigs[..j])
      {
        var r := SetupTriggerNotification(server, subscribed[j]);
        ghost var s := NotifyStatuses(server, trigs);
        assert s[..j + 1] == s[..j] + [r.status];
        AggregateStep(s[..j], r.status);
        assert trigs[..j + 1][..j] == trigs[..j];
        subscribed := subscribed[j := r.trigger];
        requests := requests + r.requests;
        if r.status != EOK {
          status := r.status;
        }
        j := j + 1;
      }
      assert trigs[..j] == trigs;
      assert NotifyStatuses(server, trigs)[..j] == NotifyStatuses(server, trigs);
    }
  }

  /** The number of triggers whose cached handle is `h`. */
  function Matches(trigs: seq<TriggerVar>, h: int): nat
  {
    if trigs == [] then 0 else (if trigs[0].hVar == h then 1 else 0) + Matches(trigs[1..], h)
  }

  lemma {:induction false} MatchesPositive(trigs: seq<TriggerVar>, h: int)
    ensures Matches(trigs, h) > 0 <==> exists i | 0 <= i < |trigs| :: trigs[i].hVar == h
    ensures Matches(trigs, h) <= |trigs|
  {
    if trigs != [] {
      MatchesPositive(trigs[1..], h);
      if exists i | 0 <= i < |trigs| :: trigs[i].hVar == h {
        var i :| 0 <= i < |trigs| && trigs[i].hVar == h;
        if i > 0 {
          assert trigs[1..][i - 1].hVar == h;
        }
      }
    }
  }
}
