/** Template construction: what SetupTemplate builds from one entry of the
    "config" array, and what iterating it over the whole array leaves behind. */
module Setup {
  import opened Types
  import opened Status
  import opened Triggers
  import opened Events

  /** The "type" string selects the queue kind only when it is exactly "mq". */
  function KindOf(typ: Option<string>): (k: Kind)
    ensures k == Mq <==> typ == Some("mq")
  {
    if typ.Some? && typ.value == "mq" then Mq else Fd
  }

  /** JSON_Iterate over the "trigger" array returned EOK. */
  predicate IterateOk(node: TemplateNode, alloc: nat -> bool)
  {
    node.trigger.Some? && Aggregate(TriggerStatuses(node.trigger.value, alloc)) == EOK
  }

  /** The trigger list JSON_Iterate left in the new template. */
  function BuiltTriggers(node: TemplateNode, alloc: nat -> bool): seq<TriggerVar>
  {
    if node.trigger.Some? then Chain(node.trigger.value, alloc) else []
  }

  /** Each trigger as SetupTriggerNotification leaves it. */
  function Subscribe(server: Option<VarServer>, trigs: seq<TriggerVar>): (r: seq<TriggerVar>)
    ensures |r| == |trigs|
    ensures forall i | 0 <= i < |r| :: r[i].name == trigs[i].name
  {
    seq(|trigs|, i requires 0 <= i < |trigs| => SetupTriggerNotification(server, trigs[i]).trigger)
  }

  /** The template SetupTemplate prepends: its triggers subscribed only when
      the whole trigger array was accepted. */
  function TemplateOf(node: TemplateNode, server: Option<VarServer>, alloc: nat -> bool): Template
  {
    var built := BuiltTriggers(node, alloc);
    Template(if IterateOk(node, alloc) then Subscribe(server, built) else built,
             node.template, node.target, KindOf(node.typ), -1, 0, node.keepOpen, node.append)
  }

  /** A new template starts with descriptor -1 and queue 0 (from calloc),
      takes its kind, paths and flags from the entry, and keeps one trigger
      per accepted element of the "trigger" array, in the order JSON_Iterate
      built them; they stay unresolved when the array was not accepted. */
  lemma TemplateOfProperties(node: TemplateNode, server: Option<VarServer>, alloc: nat -> bool)
    ensures var t := TemplateOf(node, server, alloc);
            && t.fd == -1 && t.mq == 0 && KindExclusive(t)
            && (t.kind == Mq <==> node.typ == Some("mq"))
            && t.file == node.template && t.target == node.target
            && t.keepOpen == node.keepOpen && t.append == node.append
            && |t.triggers| == |BuiltTriggers(node, alloc)|
            && (forall i | 0 <= i < |t.triggers| :: t.triggers[i].name == BuiltTriggers(node, alloc)[i].name)
            && (!IterateOk(node, alloc) ==> t.triggers == BuiltTriggers(node, alloc))
  { }

  function NotifyCalls(hs: seq<int>): (r: seq<Call>)
    ensures |r| == |hs| && forall i | 0 <= i < |hs| :: r[i] == Notify(hs[i])
  {
    seq(|hs|, i requires 0 <= i < |hs| => Notify(hs[i]))
  }

  /** The notify requests SetupTemplate makes. */
  function SetupCalls(node: TemplateNode, server: Option<VarServer>, alloc: nat -> bool): seq<Call>
  {
    var built := BuiltTriggers(node, alloc);
    if IterateOk(node, alloc) && server.Some? && built != [] then NotifyCalls(Requests(server, built)) else []
  }

  /** One malformed element of the "trigger" array (not a string, a null
      string, or a failed allocation) makes JSON_Iterate fail, so no trigger of
      that template is ever subscribed and no event ever renders it. */
  lemma BadTriggerArrayNeverFires(node: TemplateNode, server: Option<VarServer>, alloc: nat -> bool,
                                  buf: RenderBuffer, h: int, io: nat -> Io, k: nat)
    requires !IterateOk(node, alloc)
    ensures var t := TemplateOf(node, server, alloc);
            Dispatch(t, buf, h, io, k) == Processed(EINVAL, t, buf, [], k)
  {
    var t := TemplateOf(node, server, alloc);
    TemplateOfProperties(node, server, alloc);
    if node.trigger.Some? {
      ChainIsReversed(node.trigger.value, alloc);
    }
    assert forall i | 0 <= i < |t.triggers| :: t.triggers[i] in BuiltTriggers(node, alloc);
    UnresolvedNeverFires(t, buf, h, io, k);
  }

  /** The template list after SetupTemplate has run on the first `n`
      entries of the "config" array in order; the e-th template allocation
      answers `alloc(e)` and its trigger allocations `triggerAlloc(e)`.
      Newest first. */
  function Configured(entries: seq<TemplateNode>, n: nat, server: Option<VarServer>,
                      alloc: nat -> bool, triggerAlloc: nat -> nat -> bool): seq<Template>
    requires n <= |entries|
  {
    if n == 0 then []
    else
      (if alloc(n - 1) then [TemplateOf(entries[n - 1], server, triggerAlloc(n - 1))] else [])
      + Configured(entries, n - 1, server, alloc, triggerAlloc)
  }

  /** The statuses SetupTemplate returns for the first `n` entries: EOK
      where the template allocation succeeded, EINVAL where it failed. */
  function SetupStatuses(n: nat, alloc: nat -> bool): (s: seq<int>)
    ensures |s| == n
  {
    if n == 0 then [] else SetupStatuses(n - 1, alloc) + [if alloc(n - 1) then EOK else EINVAL]
  }

  /** The notify requests made while setting up the first `n` entries, in
      the order they were made. */
  function ConfiguredCalls(entries: seq<TemplateNode>, n: nat, server: Option<VarServer>,
                           alloc: nat -> bool, triggerAlloc: nat -> nat -> bool): seq<Call>
    requires n <= |entries|
  {
    if n == 0 then []
    else
      ConfiguredCalls(entries, n - 1, server, alloc, triggerAlloc)
      + (if alloc(n - 1) then SetupCalls(entries[n - 1], server, triggerAlloc(n - 1)) else [])
  }

  /** Every configured template starts closed and with its kind's handle
      unused. */
  lemma {:induction false} ConfiguredAreFresh(entries: seq<TemplateNode>, n: nat, server: Option<VarServer>,
                                              alloc: nat -> bool, triggerAlloc: nat -> nat -> bool)
    requires n <= |entries|
    ensures var ts := Configured(entries, n, server, alloc, triggerAlloc);
            && AllExclusive(ts)
            && (forall i | 0 <= i < |ts| :: ts[i].fd == -1 && ts[i].mq == 0)
  {
    if n > 0 {
      var head := if alloc(n - 1) then [TemplateOf(entries[n - 1], server, triggerAlloc(n - 1))] else [];
      var rest := Configured(entries, n - 1, server, alloc, triggerAlloc);
      ConfiguredAreFresh(entries, n - 1, server, alloc, triggerAlloc);
      var ts := head + rest;
      forall i | 0 <= i < |ts|
        ensures KindExclusive(ts[i]) && ts[i].fd == -1 && ts[i].mq == 0
      {
        if i >= |head| {
          assert ts[i] == rest[i - |head|];
        }
      }
    }
  }

  /** There is one configured template per template allocation that
      succeeded. */
  lemma {:induction false} ConfiguredCount(entries: seq<TemplateNode>, n: nat, server: Option<VarServer>,
                                           alloc: nat -> bool, triggerAlloc: nat -> nat -> bool)
    requires n <= |entries|
    ensures |Configured(entries, n, server, alloc, triggerAlloc)| == |set e | 0 <= e < n && alloc(e)|
  {
    if n > 0 {
      ConfiguredCount(entries, n - 1, server, alloc, triggerAlloc);
      var before := set e | 0 <= e < n - 1 && alloc(e);
      if alloc(n - 1) {
        assert (set e | 0 <= e < n && alloc(e)) == before + {n - 1};
      } else {
        assert (set e | 0 <= e < n && alloc(e)) == before;
      }
    }
  }
}
