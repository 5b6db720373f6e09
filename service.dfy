/** The template service state and the routines that update it in place:
    SetupTemplate, PrintTemplateFD, PrintTemplateMQ, ProcessTemplate,
    ProcessTemplates, and main's configuration pass and signal loop. Each
    method is proved to leave exactly the state the functions of Setup,
    Delivery and Events describe. */
module Service {
  import opened Types
  import opened Status
  import opened Triggers
  import opened Delivery
  import opened Events
  import opened Setup

  /** TemplateSvcState. The collaborators' answers to the j-th delivery
      attempt are `io(j)`; `calls` records every call made to them. */
  class TemplateSvc {
    const server: Option<VarServer>     // hVarServer
    var buf: RenderBuffer                // the VarFP render buffer and varFd
    var templates: seq<Template>         // pTemplates, head first
    var calls: seq<Call>

    /** Every template only uses the handle its kind allows. */
    ghost predicate Valid()
      reads this
    {
      AllExclusive(templates)
    }

    /** The state main sets up before reading the configuration: no
        templates, and the render buffer SetupVarFP opened on `varFd`. */
    constructor (server: Option<VarServer>, varFd: int)
      ensures this.server == server && buf == RenderBuffer(varFd, 0, [])
      ensures templates == [] && calls == [] && Valid()
    {
      this.server := server;
      buf := RenderBuffer(varFd, 0, []);
      templates := [];
      calls := [];
    }

    /** SetupTemplate: `alloc` is whether calloc of the template succeeded,
        `triggerAlloc(j)` whether that of the j-th trigger did. */
    method SetupTemplate(node: TemplateNode, alloc: bool, triggerAlloc: nat -> bool) returns (r: int)
      modifies this
      ensures r == if alloc then EOK else EINVAL
      ensures templates == (if alloc then [TemplateOf(node, server, triggerAlloc)] else []) + old(templates)
      ensures calls == old(calls) + (if alloc then SetupCalls(node, server, triggerAlloc) else [])
      ensures buf == old(buf)
      ensures old(Valid()) ==> Valid()
    {
      r := EINVAL;
      if alloc {
        var status, list := IterateTriggers(node.trigger, triggerAlloc);
        if status == EOK {
          var rc, subscribed, requests := SetupTriggerNotifications(server, list);
          assert subscribed == Subscribe(server, list);
          list := subscribed;
          calls := calls + NotifyCalls(requests);
        } else {
          assert !IterateOk(node, triggerAlloc);
        }
        templates := [Template(list, node.template, node.target, KindOf(node.typ), -1, 0, node.keepOpen, node.append)]
                     + templates;
        r := EOK;
      }
    }

    /** PrintTemplateFD on the i-th template. */
    method PrintTemplateFD(i: nat, io: Io) returns (r: int)
      requires i < |templates|
      modifies this
      ensures var d := DeliverFd(old(templates[i]), old(buf), io);
              && r == d.status
              && templates == old(templates)[i := d.tmpl]
              && buf == old(buf)
              && calls == old(calls) + d.calls
    {
      var t := templates[i];
      r := ENOENT;
      if t.file.Some? && t.target.Some? {
        var made := [Open(t.file.value, O_RDONLY)];
        var fd := io.src;
        var openDst := [];
        if t.fd == -1 {
          openDst := [Open(t.target.value, TargetFlags(t.append))];
          t := t.(fd := io.dst);
        }
        made := made + openDst;
        if fd > 0 && t.fd > 0 {
          made := made + [Render(fd, t.fd)];
          r := io.render;
          var closeDst := [];
          if !t.keepOpen {
            closeDst := [Close(t.fd)];
            t := t.(fd := -1);
          }
          made := made + closeDst;
        }
        var closeSrc := [];
        if fd > 0 {
          closeSrc := [Close(fd)];
        }
        templates := templates[i := t];
        calls := calls + (made + closeSrc);
      }
    }

    /** PrintTemplateMQ on the i-th template. */
    method PrintTemplateMQ(i: nat, io: Io) returns (r: int)
      requires i < |templates|
      modifies this
      ensures var d := DeliverMq(old(templates[i]), old(buf), io);
              && r == d.status
              && templates == old(templates)[i := d.tmpl]
              && buf == d.buf
              && calls == old(calls) + d.calls
    {
      var t := templates[i];
      r := ENOENT;
      if buf.fd > 0 && t.file.Some? && t.target.Some? {
        var made := [Open(t.file.value, O_RDONLY)];
        var fd := io.src;
        if fd > 0 {
          made := made + [Seek(buf.fd, 0)];
          buf := buf.(cursor := 0);
          made := made + [Render(fd, buf.fd)];
          WriteAtStart(buf.data, io.written);
          buf := buf.(cursor := buf.cursor + |io.written|, data := WriteAt(buf.data, buf.cursor, io.written));
          r := io.render;
          if r == EOK {
            var queue := [];
            if t.mq <= 0 {
              queue := [MqOpen(t.target.value, O_WRONLY)];
              t := t.(mq := io.mq);
            }
            if t.mq > 0 {
              if io.data {
                queue := queue + [MqSend(t.mq, CString(buf.data))];
                r := if io.sendRc != 0 then io.errno else EOK;
                var closeMq := [];
                if r != EOK || !t.keepOpen {
                  closeMq := [MqClose(t.mq)];
                  t := t.(mq := -1);
                }
                queue := queue + closeMq;
              }
            } else {
              r := EBADF;
            }
            made := made + queue;
          }
          made := made + [Close(fd)];
          templates := templates[i := t];
        }
        calls := calls + made;
      }
    }

    /** ProcessTemplate on the i-th template for an event on handle `h`; the
        first delivery it makes sees `io(k)`, and `next` is the index after
        its last one. */
    method ProcessTemplate(i: nat, h: int, io: nat -> Io, k: nat) returns (r: int, next: nat)
      requires i < |templates|
      modifies this
      ensures var p := Dispatch(old(templates[i]), old(buf), h, io, k);
              && r == p.status && next == p.next
              && templates == old(templates)[i := p.tmpl]
              && buf == p.buf
              && calls == old(calls) + p.calls
    {
      r, next := EINVAL, k;
      if h != VAR_INVALID {
        var trigs := templates[i].triggers;
        ghost var full := Scan(trigs, h, templates[i], buf, io, k);
        ghost var done: seq<int> := [];
        var j := 0;
        while j < |trigs|
          invariant 0 <= j <= |trigs| && |templates| == |old(templates)|
          invariant templates == old(templates)[i := templates[i]]
          invariant r == if done == [] then EINVAL else Last(done)
          invariant var rest := Scan(trigs[j..], h, templates[i], buf, io, next);
                    && full.statuses == done + rest.statuses
                    && old(calls) + full.calls == calls + rest.calls
                    && rest.tmpl == full.tmpl && rest.buf == full.buf && rest.next == full.next
        {
          ScanStep(trigs, j, h, templates[i], buf, io, next);
          if trigs[j].hVar == h {
            ghost var d := Deliver(templates[i], buf, io(next));
            ghost var calls0 := calls;
            match templates[i].kind {
              case Fd =>
                r := PrintTemplateFD(i, io(next));
              case Mq =>
                r := PrintTemplateMQ(i, io(next));
            }
            assert r == d.status && templates[i] == d.tmpl && buf == d.buf && calls == calls0 + d.calls;
            ghost var after := Scan(trigs[j + 1..], h, templates[i], buf, io, next + 1);
            AppendAssoc(calls0, d.calls, after.calls);
            AppendAssoc(done, [r], after.statuses);
            done := done + [r];
            next := next + 1;
          }
          j := j + 1;
        }
      }
    }

    /** ProcessTemplates for an event on handle `h`. */
    method ProcessTemplates(h: int, io: nat -> Io, k: nat) returns (r: int, next: nat)
      modifies this
      ensures var s := Sweep(old(templates), old(buf), h, io, k);
              && r == Aggregate(s.statuses) && next == s.next
              && templates == s.templates && buf == s.buf
              && calls == old(calls) + s.calls
      ensures old(Valid()) ==> Valid()
    {
      ghost var ts := templates;
      ghost var full := Sweep(ts, buf, h, io, k);
      ghost var done: seq<int> := [];
      ghost var doneT: seq<Template> := [];
      r, next := EOK, k;
      var i := 0;
      while i < |templates|
        invariant 0 <= i <= |ts| && |doneT| == i
        invariant templates == doneT + ts[i..]
        invariant r == Aggregate(done)
        invariant var rest := Sweep(ts[i..], buf, h, io, next);
                  && full.statuses == done + rest.statuses
                  && full.templates == doneT + rest.templates
                  && old(calls) + full.calls == calls + rest.calls
                  && rest.buf == full.buf && rest.next == full.next
      {
        assert ts[i..] == [ts[i]] + ts[i + 1..];
        ghost var buf0, calls0 := buf, calls;
        var rc, n := ProcessTemplate(i, h, io, next);
        ghost var p := Dispatch(ts[i], buf0, h, io, next);
        ghost var after := Sweep(ts[i + 1..], buf, h, io, n);
        UpdateAfter(doneT, ts[i], templates[i], ts[i + 1..]);
        AppendAssoc(calls0, p.calls, after.calls);
        AppendAssoc(done, [rc], after.statuses);
        AppendAssoc(doneT, [templates[i]], after.templates);
        AggregateStep(done, rc);
        done := done + [rc];
        doneT := doneT + [templates[i]];
        if rc != EOK {
          r := rc;
        }
        next := n;
        i := i + 1;
      }
      assert ts[i..] == [];
      assert templates == doneT == full.templates;
      assert full.statuses == done;
      assert old(calls) + full.calls == calls;
      SweepProperties(ts, old(buf), h, io, k);
    }

    /** main's JSON_Iterate over the "config" array with SetupTemplate as the
        callback: every entry is set up in order, the e-th template
        allocation answering `alloc(e)`; a missing array sets up nothing.
        main ignores the status. */
    method Configure(entries: Option<seq<TemplateNode>>, alloc: nat -> bool, triggerAlloc: nat -> nat -> bool)
      returns (r: int)
      modifies this
      ensures entries.None? ==> r == EINVAL && templates == old(templates) && calls == old(calls)
      ensures entries.Some? ==> r == Aggregate(SetupStatuses(|entries.value|, alloc))
      ensures entries.Some? ==>
                && templates == Configured(entries.value, |entries.value|, server, alloc, triggerAlloc) + old(templates)
                && calls == old(calls) + ConfiguredCalls(entries.value, |entries.value|, server, alloc, triggerAlloc)
      ensures buf == old(buf)
      ensures old(Valid()) ==> Valid()
    {
      r := EINVAL;
      if entries.Some? {
        var es := entries.value;
        r := EOK;
        var e := 0;
        while e < |es|
          invariant 0 <= e <= |es| && buf == old(buf)
          invariant r == Aggregate(SetupStatuses(e, alloc))
          invariant templates == Configured(es, e, server, alloc, triggerAlloc) + old(templates)
          invariant calls == old(calls) + ConfiguredCalls(es, e, server, alloc, triggerAlloc)
        {
          ghost var before := Configured(es, e, server, alloc, triggerAlloc);
          ghost var beforeCalls := ConfiguredCalls(es, e, server, alloc, triggerAlloc);
          var rc := SetupTemplate(es[e], alloc(e), triggerAlloc(e));
          assert templates == Configured(es, e + 1, server, alloc, triggerAlloc) + old(templates) by {
            AppendAssoc(if alloc(e) then [TemplateOf(es[e], server, triggerAlloc(e))] else [], before, old(templates));
          }
          assert calls == old(calls) + ConfiguredCalls(es, e + 1, server, alloc, triggerAlloc) by {
            AppendAssoc(old(calls), beforeCalls, if alloc(e) then SetupCalls(es[e], server, triggerAlloc(e)) else []);
          }
          assert Aggregate(SetupStatuses(e + 1, alloc)) == if rc != EOK then rc else r by {
            assert SetupStatuses(e + 1, alloc) == SetupStatuses(e, alloc) + [rc];
            AggregateStep(SetupStatuses(e, alloc), rc);
          }
          if rc != EOK {
            r := rc;
          }
          e := e + 1;
        }
        assert old(Valid()) ==> Valid() by {
          ConfiguredAreFresh(es, |es|, server, alloc, triggerAlloc);
        }
      }
    }

    /** main's signal loop over the signals received so far: each
        SIG_VAR_MODIFIED runs ProcessTemplates for the handle it carries and
        every other signal is ignored. */
    method Serve(events: seq<Event>, io: nat -> Io, k: nat) returns (next: nat)
      modifies this
      ensures var s := Run(events, old(templates), old(buf), io, k);
              && next == s.next && templates == s.templates && buf == s.buf
              && calls == old(calls) + s.calls
      ensures old(Valid()) ==> Valid()
    {
      ghost var full := Run(events, templates, buf, io, k);
      next := k;
      var e := 0;
      while e < |events|
        invariant 0 <= e <= |events|
        invariant var rest := Run(events[e..], templates, buf, io, next);
                  && full.templates == rest.templates && full.buf == rest.buf && full.next == rest.next
                  && old(calls) + full.calls == calls + rest.calls
        invariant old(Valid()) ==> Valid()
      {
        ghost var rest := Run(events[e..], templates, buf, io, next);
        assert events[e..][1..] == events[e + 1..];
        if events[e].sig == VarModified {
          ghost var s := Sweep(templates, buf, events[e].val, io, next);
          ghost var calls0 := calls;
          var rc;
          rc, next := ProcessTemplates(events[e].val, io, next);
          ghost var after := Run(events[e + 1..], templates, buf, io, next);
          assert rest.calls == s.calls + after.calls;
          assert calls0 + (s.calls + after.calls) == calls0 + s.calls + after.calls;
        }
        e := e + 1;
      }
    }
  }
}
