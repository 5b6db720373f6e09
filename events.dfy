/** Events: ProcessTemplate, ProcessTemplates and the event loop of main,
    as functions over the template list and the render buffer. The j-th
    delivery attempt sees the collaborators' answers `io(j)`; `k` is the number
    of attempts made before, and `next` the number made after. */
module Events {
  import opened Types
  import opened Status
  import opened Triggers
  import opened Delivery

  datatype ScanResult = ScanResult(statuses: seq<int>, tmpl: Template, buf: RenderBuffer, calls: seq<Call>, next: nat)

  /** The walk of ProcessTemplate over the triggers `trigs` of template `t`:
      one delivery for every trigger whose handle is `h`, never stopping
      early. `statuses` are the deliveries' statuses in order. */
  function Scan(trigs: seq<TriggerVar>, h: int, t: Template, buf: RenderBuffer, io: nat -> Io, k: nat): ScanResult
    decreases |trigs|
  {
    if trigs == [] then ScanResult([], t, buf, [], k)
    else if trigs[0].hVar == h then
      var d := Deliver(t, buf, io(k));
      var r := Scan(trigs[1..], h, d.tmpl, d.buf, io, k + 1);
      ScanResult([d.status] + r.statuses, r.tmpl, r.buf, d.calls + r.calls, r.next)
    else
      Scan(trigs[1..], h, t, buf, io, k)
  }

  /** One delivery per matching trigger, each consuming one set of answers;
      the walk changes only the template's handles, keeps the kind's
      exclusivity, and leaves the buffer alone for a descriptor template;
      without a match nothing happens at all. */
  lemma {:induction false} ScanProperties(trigs: seq<TriggerVar>, h: int, t: Template, buf: RenderBuffer, io: nat -> Io, k: nat)
    ensures var r := Scan(trigs, h, t, buf, io, k);
            && |r.statuses| == Matches(trigs, h) && r.next == k + |r.statuses|
            && SameConfig(t, r.tmpl)
            && (KindExclusive(t) ==> KindExclusive(r.tmpl))
            && (t.kind == Fd ==> r.buf == buf)
            && (Matches(trigs, h) == 0 ==> r == ScanResult([], t, buf, [], k))
    decreases |trigs|
  {
    if trigs != [] {
      if trigs[0].hVar == h {
        var d := Deliver(t, buf, io(k));
        DeliverProperties(t, buf, io(k));
        ScanProperties(trigs[1..], h, d.tmpl, d.buf, io, k + 1);
      } else {
        ScanProperties(trigs[1..], h, t, buf, io, k);
      }
    }
  }

  /** One step of the walk from position `j`: a matching trigger delivers
      and the walk goes on from the delivery's template and buffer; any other
      trigger is passed over. */
  lemma ScanStep(trigs: seq<TriggerVar>, j: nat, h: int, t: Template, buf: RenderBuffer, io: nat -> Io, k: nat)
    requires j < |trigs|
    ensures var rest := Scan(trigs[j..], h, t, buf, io, k);
            var d := Deliver(t, buf, io(k));
            var after := Scan(trigs[j + 1..], h, d.tmpl, d.buf, io, k + 1);
            trigs[j].hVar == h ==>
              rest == ScanResult([d.status] + after.statuses, after.tmpl, after.buf, d.calls + after.calls, after.next)
    ensures trigs[j].hVar != h ==> Scan(trigs[j..], h, t, buf, io, k) == Scan(trigs[j + 1..], h, t, buf, io, k)
  {
    assert trigs[j..][1..] == trigs[j + 1..];
  }

  datatype Processed = Processed(status: int, tmpl: Template, buf: RenderBuffer, calls: seq<Call>, next: nat)

  /** The number of deliveries an event for `h` causes for template `t`. */
  function Hits(t: Template, h: int): nat
  {
    if h == VAR_INVALID then 0 else Matches(t.triggers, h)
  }

  /** ProcessTemplate. */
  function Dispatch(t: Template, buf: RenderBuffer, h: int, io: nat -> Io, k: nat): Processed
  {
    if h == VAR_INVALID then Processed(EINVAL, t, buf, [], k)
    else
      var s := Scan(t.triggers, h, t, buf, io, k);
      Processed(if s.statuses == [] then EINVAL else Last(s.statuses), s.tmpl, s.buf, s.calls, s.next)
  }

  /** ProcessTemplate reports EINVAL and does nothing when no trigger carries
      the handle (or the handle is invalid), and otherwise the status of the
      last of its deliveries. */
  lemma DispatchProperties(t: Template, buf: RenderBuffer, h: int, io: nat -> Io, k: nat)
    ensures var p := Dispatch(t, buf, h, io, k);
            && SameConfig(t, p.tmpl)
            && (KindExclusive(t) ==> KindExclusive(p.tmpl))
            && (t.kind == Fd ==> p.buf == buf)
            && p.next == k + Hits(t, h)
            && (Hits(t, h) == 0 ==> p == Processed(EINVAL, t, buf, [], k))
            && (Hits(t, h) > 0 ==>
                  var s := Scan(t.triggers, h, t, buf, io, k);
                  |s.statuses| == Hits(t, h) && p.status == s.statuses[|s.statuses| - 1])
  {
    ScanProperties(t.triggers, h, t, buf, io, k);
  }

  /** Deliveries an event for `h` causes over a whole template list. */
  function TotalHits(ts: seq<Template>, h: int): nat
  {
    if ts == [] then 0 else Hits(ts[0], h) + TotalHits(ts[1..], h)
  }

  predicate AllExclusive(ts: seq<Template>)
  {
    forall i | 0 <= i < |ts| :: KindExclusive(ts[i])
  }

  predicate AllSameConfig(ts: seq<Template>, us: seq<Template>)
  {
    |ts| == |us| && forall i | 0 <= i < |ts| :: SameConfig(ts[i], us[i])
  }

  datatype Swept = Swept(statuses: seq<int>, templates: seq<Template>, buf: RenderBuffer, calls: seq<Call>, next: nat)

  /** The walk of ProcessTemplates: ProcessTemplate on every template in list
      order; `statuses` are their results in order. */
  function Sweep(ts: seq<Template>, buf: RenderBuffer, h: int, io: nat -> Io, k: nat): (r: Swept)
    ensures |r.statuses| == |r.templates| == |ts|
    decreases |ts|
  {
    if ts == [] then Swept([], [], buf, [], k)
    else
      var p := Dispatch(ts[0], buf, h, io, k);
      var r := Sweep(ts[1..], p.buf, h, io, p.next);
      Swept([p.status] + r.statuses, [p.tmpl] + r.templates, r.buf, p.calls + r.calls, r.next)
  }

  /** A pass keeps every template's configuration and the exclusivity of its
      handles, and consumes one set of answers per delivery. */
  lemma {:induction false} SweepProperties(ts: seq<Template>, buf: RenderBuffer, h: int, io: nat -> Io, k: nat)
    ensures var r := Sweep(ts, buf, h, io, k);
            && AllSameConfig(ts, r.templates)
            && r.next == k + TotalHits(ts, h)
            && (AllExclusive(ts) ==> AllExclusive(r.templates))
    decreases |ts|
  {
    if ts != [] {
      var p := Dispatch(ts[0], buf, h, io, k);
      var rest := Sweep(ts[1..], p.buf, h, io, p.next);
      var r := Sweep(ts, buf, h, io, k);
      DispatchProperties(ts[0], buf, h, io, k);
      SweepProperties(ts[1..], p.buf, h, io, p.next);
      assert r.templates == [p.tmpl] + rest.templates;
      forall i | 1 <= i < |ts|
        ensures ts[1..][i - 1] == ts[i] && r.templates[i] == rest.templates[i - 1]
      {
      }
    }
  }

  /** A template the event does not concern is left alone and reports EINVAL. */
  lemma {:induction false} SweepSkips(ts: seq<Template>, buf: RenderBuffer, h: int, io: nat -> Io, k: nat)
    ensures var r := Sweep(ts, buf, h, io, k);
            forall i | 0 <= i < |ts| && Hits(ts[i], h) == 0 :: r.templates[i] == ts[i] && r.statuses[i] == EINVAL
    decreases |ts|
  {
    if ts != [] {
      var p := Dispatch(ts[0], buf, h, io, k);
      var rest := Sweep(ts[1..], p.buf, h, io, p.next);
      var r := Sweep(ts, buf, h, io, k);
      DispatchProperties(ts[0], buf, h, io, k);
      SweepSkips(ts[1..], p.buf, h, io, p.next);
      forall i | 1 <= i < |ts|
        ensures ts[1..][i - 1] == ts[i] && r.templates[i] == rest.templates[i - 1] && r.statuses[i] == rest.statuses[i - 1]
      {
      }
    }
  }

  /** A pass that concerns no template changes nothing. */
  lemma {:induction false} SweepIdle(ts: seq<Template>, buf: RenderBuffer, h: int, io: nat -> Io, k: nat)
    requires TotalHits(ts, h) == 0
    ensures var r := Sweep(ts, buf, h, io, k);
            r.templates == ts && r.buf == buf && r.calls == []
    decreases |ts|
  {
    if ts != [] {
      DispatchProperties(ts[0], buf, h, io, k);
      SweepIdle(ts[1..], buf, h, io, k);
      assert [ts[0]] + ts[1..] == ts;
    }
  }

  /** The status ProcessTemplates returns is EOK exactly when every
      template's ProcessTemplate returned EOK, so only when every template had
      a trigger for the event. */
  lemma SweepStatus(ts: seq<Template>, buf: RenderBuffer, h: int, io: nat -> Io, k: nat)
    ensures var s := Sweep(ts, buf, h, io, k).statuses;
            (Aggregate(s) == EOK <==> forall i | 0 <= i < |s| :: s[i] == EOK)
    ensures Aggregate(Sweep(ts, buf, h, io, k).statuses) == EOK ==>
              forall i | 0 <= i < |ts| :: h != VAR_INVALID && Matches(ts[i].triggers, h) > 0
  {
    AggregateProperties(Sweep(ts, buf, h, io, k).statuses);
    SweepSkips(ts, buf, h, io, k);
  }

  /** The number of events main hands to ProcessTemplates. */
  function Modified(events: seq<Event>): nat
  {
    if events == [] then 0 else (if events[0].sig == VarModified then 1 else 0) + Modified(events[1..])
  }

  datatype Served = Served(passes: nat, templates: seq<Template>, buf: RenderBuffer, calls: seq<Call>, next: nat)

  /** The loop of main over a finite prefix of the signals it receives: every
      SIG_VAR_MODIFIED, and only those, runs one full ProcessTemplates pass
      for the handle it carries; its status is discarded. */
  function Run(events: seq<Event>, ts: seq<Template>, buf: RenderBuffer, io: nat -> Io, k: nat): Served
    decreases |events|
  {
    if events == [] then Served(0, ts, buf, [], k)
    else if events[0].sig == VarModified then
      var s := Sweep(ts, buf, events[0].val, io, k);
      var r := Run(events[1..], s.templates, s.buf, io, s.next);
      Served(1 + r.passes, r.templates, r.buf, s.calls + r.calls, r.next)
    else
      Run(events[1..], ts, buf, io, k)
  }

  /** One pass per modification signal; the configuration of every template
      and the exclusivity of its handles survive any number of passes, and
      without a modification signal nothing happens. */
  lemma {:induction false} RunProperties(events: seq<Event>, ts: seq<Template>, buf: RenderBuffer, io: nat -> Io, k: nat)
    ensures var r := Run(events, ts, buf, io, k);
            && r.passes == Modified(events)
            && AllSameConfig(ts, r.templates)
            && (AllExclusive(ts) ==> AllExclusive(r.templates))
            && (Modified(events) == 0 ==> r == Served(0, ts, buf, [], k))
    decreases |events|
  {
    if events != [] {
      if events[0].sig == VarModified {
        var s := Sweep(ts, buf, events[0].val, io, k);
        SweepProperties(ts, buf, events[0].val, io, k);
        RunProperties(events[1..], s.templates, s.buf, io, s.next);
      } else {
        RunProperties(events[1..], ts, buf, io, k);
      }
    }
  }

  // ---- properties across several deliveries ----

  /** A template whose triggers were never resolved (SetupTriggerNotifications
      was not reached, or every name failed) never fires. */
  lemma UnresolvedNeverFires(t: Template, buf: RenderBuffer, h: int, io: nat -> Io, k: nat)
    requires forall i | 0 <= i < |t.triggers| :: t.triggers[i].hVar == VAR_INVALID
    ensures Dispatch(t, buf, h, io, k) == Processed(EINVAL, t, buf, [], k)
  {
    MatchesPositive(t.triggers, h);
    DispatchProperties(t, buf, h, io, k);
  }

  /** The number of times `c` was called. */
  function Count(calls: seq<Call>, c: Call): nat
  {
    if calls == [] then 0 else (if calls[0] == c then 1 else 0) + Count(calls[1..], c)
  }

  lemma {:induction false} CountAppend(a: seq<Call>, b: seq<Call>, c: Call)
    ensures Count(a + b, c) == Count(a, c) + Count(b, c)
  {
    if a != [] {
      assert (a + b)[1..] == a[1..] + b;
      CountAppend(a[1..], b, c);
    } else {
      assert a + b == b;
    }
  }

  lemma {:induction false} CountAbsent(a: seq<Call>, c: Call)
    requires c !in a
    ensures Count(a, c) == 0
  {
    if a != [] {
      CountAbsent(a[1..], c);
    }
  }

  /** An attempt in which the template opens, renders and sends without fault. */
  predicate Healthy(x: Io)
  {
    x.src > 0 && x.dst > 0 && x.render == EOK && x.mq > 0 && x.data && x.sendRc == 0
  }

  /** One healthy delivery of a queue template kept open: the queue is opened
      only if it was not, and stays open. */
  lemma KeptQueueStep(t: Template, buf: RenderBuffer, x: Io)
    requires t.kind == Mq && t.keepOpen && MqReady(t, buf) && Healthy(x)
    ensures var d := Deliver(t, buf, x);
            && d.tmpl == t.(mq := OpenedMq(t, x)) && OpenedMq(t, x) > 0
            && d.buf.fd == buf.fd
            && Count(d.calls, MqOpen(t.target.value, O_WRONLY)) == (if t.mq <= 0 then 1 else 0)
  {
    var c := MqOpen(t.target.value, O_WRONLY);
    var d := Deliver(t, buf, x);
    DeliverMqProperties(t, buf, x, d);
    var q := PostRender(t, CString(d.buf.data), x);
    PostRenderProperties(t, CString(d.buf.data), x, q);
    CountAppend(d.calls[..3] + q.calls, [Close(x.src)], c);
    CountAppend(d.calls[..3], q.calls, c);
    CountAbsent(d.calls[..3], c);
    CountAbsent([Close(x.src)], c);
    if t.mq > 0 {
      CountAbsent(q.calls, c);
    } else {
      assert q.calls[0] == c;
      assert q.calls[1..] == [MqSend(x.mq, CString(d.buf.data))];
      CountAbsent(q.calls[1..], c);
    }
  }

  /** A queue template kept open opens its queue at most once, however many
      deliveries follow, and keeps sending on that queue. */
  lemma {:induction false} KeptQueueOpensOnce(trigs: seq<TriggerVar>, h: int, t: Template, buf: RenderBuffer, io: nat -> Io, k: nat)
    requires t.kind == Mq && t.keepOpen && MqReady(t, buf)
    requires forall j | k <= j :: Healthy(io(j))
    ensures var r := Scan(trigs, h, t, buf, io, k);
            && Count(r.calls, MqOpen(t.target.value, O_WRONLY)) == (if t.mq <= 0 && Matches(trigs, h) > 0 then 1 else 0)
            && (t.mq > 0 ==> r.tmpl.mq == t.mq)
            && (Matches(trigs, h) > 0 ==> r.tmpl.mq > 0)
    decreases |trigs|
  {
    var c := MqOpen(t.target.value, O_WRONLY);
    if trigs != [] {
      if trigs[0].hVar == h {
        var d := Deliver(t, buf, io(k));
        KeptQueueStep(t, buf, io(k));
        KeptQueueOpensOnce(trigs[1..], h, d.tmpl, d.buf, io, k + 1);
        var r := Scan(trigs[1..], h, d.tmpl, d.buf, io, k + 1);
        CountAppend(d.calls, r.calls, c);
      } else {
        KeptQueueOpensOnce(trigs[1..], h, t, buf, io, k);
      }
    }
  }

  /** One healthy delivery of a descriptor template that is not kept open. */
  lemma UnkeptFileStep(t: Template, buf: RenderBuffer, x: Io)
    requires t.kind == Fd && !t.keepOpen && HasPaths(t) && t.fd == -1 && Healthy(x)
    ensures var d := Deliver(t, buf, x);
            && d.tmpl == t && d.buf == buf
            && Count(d.calls, Open(t.target.value, TargetFlags(t.append))) == 1
  {
    var c := Open(t.target.value, TargetFlags(t.append));
    var head := [Open(t.file.value, O_RDONLY), c];
    var tail := [Render(x.src, x.dst), Close(x.dst), Close(x.src)];
    assert DeliverFd(t, buf, x).calls == head + tail;
    CountAppend(head, tail, c);
    CountAbsent(tail, c);
    assert head[1..][1..] == [];
  }

  /** A descriptor template not kept open reopens its destination for every
      delivery, without O_APPEND unless in append mode, and ends closed. */
  lemma {:induction false} UnkeptFileReopens(trigs: seq<TriggerVar>, h: int, t: Template, buf: RenderBuffer, io: nat -> Io, k: nat)
    requires t.kind == Fd && !t.keepOpen && HasPaths(t) && t.fd == -1
    requires forall j | k <= j :: Healthy(io(j))
    ensures var r := Scan(trigs, h, t, buf, io, k);
            && Count(r.calls, Open(t.target.value, TargetFlags(t.append))) == Matches(trigs, h)
            && r.tmpl.fd == -1
    decreases |trigs|
  {
    var c := Open(t.target.value, TargetFlags(t.append));
    if trigs != [] {
      UnkeptFileReopens(trigs[1..], h, t, buf, io, if trigs[0].hVar == h then k + 1 else k);
      if trigs[0].hVar == h {
        UnkeptFileStep(t, buf, io(k));
        var d := Deliver(t, buf, io(k));
        var r := Scan(trigs[1..], h, t, buf, io, k + 1);
        CountAppend(d.calls, r.calls, c);
      }
    }
  }

  /** Two triggers of one template carrying the same handle deliver the
      template twice for one event. */
  lemma DuplicateTriggerDeliversTwice(t: Template, buf: RenderBuffer, h: int, io: nat -> Io, k: nat)
    requires h != VAR_INVALID && |t.triggers| == 2
    requires t.triggers[0].hVar == h && t.triggers[1].hVar == h
    ensures Dispatch(t, buf, h, io, k).next == k + 2
  {
    DispatchProperties(t, buf, h, io, k);
    assert Matches(t.triggers[1..][1..], h) == 0;
    assert Matches(t.triggers[1..], h) == 1;
  }
}
