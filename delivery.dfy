/** The two delivery routines, PrintTemplateFD and PrintTemplateMQ, as
    functions from a template, the render buffer and the collaborators'
    answers to the new template, buffer, status and the calls made. */
module Delivery {
  import opened Types

  /** What one delivery leaves: its status, the template, the render buffer and the calls it made. */
  datatype Outcome = Outcome(status: int, tmpl: Template, buf: RenderBuffer, calls: seq<Call>)

  /** The flags PrintTemplateFD opens its destination with. */
  function TargetFlags(append: bool): (f: bv32)
    ensures f & O_WRONLY == O_WRONLY && f & O_CREAT == O_CREAT
    ensures f & O_APPEND == O_APPEND <==> append
    ensures f & O_TRUNC == 0
    ensures f != O_RDONLY
  {
    if append then O_WRONLY | O_CREAT | O_APPEND else O_WRONLY | O_CREAT
  }

  /** The destination descriptor once PrintTemplateFD has opened it if it had to. */
  function OpenedFd(t: Template, io: Io): int
  {
    if t.fd == -1 then io.dst else t.fd
  }

  predicate HasPaths(t: Template)
  {
    t.file.Some? && t.target.Some?
  }

  /** PrintTemplateFD. */
  function DeliverFd(t: Template, buf: RenderBuffer, io: Io): Outcome
  {
    if !HasPaths(t) then Outcome(ENOENT, t, buf, [])
    else
      var openSrc := [Open(t.file.value, O_RDONLY)];
      var openDst := if t.fd == -1 then [Open(t.target.value, TargetFlags(t.append))] else [];
      var fd := OpenedFd(t, io);
      var closeSrc := if io.src > 0 then [Close(io.src)] else [];
      if io.src > 0 && fd > 0 then
        var closeDst := if t.keepOpen then [] else [Close(fd)];
        Outcome(io.render, t.(fd := if t.keepOpen then fd else -1), buf,
                 openSrc + openDst + [Render(io.src, fd)] + closeDst + closeSrc)
      else
        Outcome(ENOENT, t.(fd := fd), buf, openSrc + openDst + closeSrc)
  }

  /** What PrintTemplateFD opens, renders and closes, and the status it returns. */
  lemma DeliverFdProperties(t: Template, buf: RenderBuffer, io: Io, d: Outcome)
    requires d == DeliverFd(t, buf, io)
    ensures d.buf == buf && SameConfig(t, d.tmpl) && d.tmpl.mq == t.mq
    ensures !HasPaths(t) ==> d == Outcome(ENOENT, t, buf, [])
    ensures HasPaths(t) ==> d.calls != [] && d.calls[0] == Open(t.file.value, O_RDONLY)
    // the destination is opened only when it is not open, with O_APPEND only in append mode
    ensures HasPaths(t) ==> (Open(t.target.value, TargetFlags(t.append)) in d.calls <==> t.fd == -1)
    // the source descriptor is closed, last, exactly when it was opened
    ensures HasPaths(t) ==> (Close(io.src) in d.calls <==> io.src > 0)
    ensures HasPaths(t) && io.src > 0 ==> d.calls[|d.calls| - 1] == Close(io.src)
    // both open: the render's status, and the destination closed unless kept open
    ensures HasPaths(t) && io.src > 0 && OpenedFd(t, io) > 0 ==>
              && d.status == io.render
              && Render(io.src, OpenedFd(t, io)) in d.calls
              && d.tmpl.fd == (if t.keepOpen then OpenedFd(t, io) else -1)
              && (Close(OpenedFd(t, io)) in d.calls <==> !t.keepOpen || OpenedFd(t, io) == io.src)
    // otherwise ENOENT, nothing rendered, and a just-opened destination stays open
    ensures HasPaths(t) && !(io.src > 0 && OpenedFd(t, io) > 0) ==>
              && d.status == ENOENT
              && d.tmpl.fd == OpenedFd(t, io)
              && forall c | c in d.calls :: !c.Render?
  {
  }

  /** strlen: the text up to, not including, the first NUL. */
  function CString(s: seq<char>): (r: seq<char>)
    ensures r <= s && '\0' !in r
    ensures |r| < |s| ==> s[|r|] == '\0'
  {
    if s == [] || s[0] == '\0' then [] else [s[0]] + CString(s[1..])
  }

  /** write(2) of `w` at offset `off` of a descriptor that is not truncated:
      the bytes before and after are kept, a gap past the end reads as NUL. */
  function WriteAt(data: seq<char>, off: nat, w: seq<char>): (r: seq<char>)
    ensures |r| == if off + |w| < |data| then |data| else off + |w|
    ensures r[off..off + |w|] == w
    ensures off <= |data| ==> r[..off] == data[..off]
    ensures off + |w| < |data| ==> r[off + |w|..] == data[off + |w|..]
  {
    var head := if off <= |data| then data[..off] else data + seq(off - |data|, _ => '\0');
    var tail := if off + |w| < |data| then data[off + |w|..] else [];
    assert (head + w + tail)[off..off + |w|] == w;
    head + w + tail
  }

  /** The same write at offset 0. */
  function Overwrite(data: seq<char>, w: seq<char>): (r: seq<char>)
    ensures |r| == if |w| < |data| then |data| else |w|
    ensures w <= r && r[|w|..] == if |w| < |data| then data[|w|..] else []
  {
    if |w| < |data| then w + data[|w|..] else w
  }

  lemma WriteAtStart(data: seq<char>, w: seq<char>)
    ensures WriteAt(data, 0, w) == Overwrite(data, w)
  {
    assert data[..0] == [];
  }

  /** The buffer once the render has been written to it from offset 0. */
  function Rendered(buf: RenderBuffer, io: Io): RenderBuffer
  {
    buf.(cursor := |io.written|, data := Overwrite(buf.data, io.written))
  }

  /** The queue PrintTemplateMQ sends to once it has opened it if it had to. */
  function OpenedMq(t: Template, io: Io): int
  {
    if t.mq <= 0 then io.mq else t.mq
  }

  /** The guard PrintTemplateMQ checks before it touches anything. */
  predicate MqReady(t: Template, buf: RenderBuffer)
  {
    buf.fd > 0 && HasPaths(t)
  }

  /** The status mq_send leaves in `result`. */
  function SendStatus(io: Io): int
  {
    if io.sendRc != 0 then io.errno else EOK
  }

  /** Whether a call sequence holds an mq_send. */
  predicate Sends(calls: seq<Call>)
  {
    exists c | c in calls :: c.MqSend?
  }

  datatype QueueStep = QueueStep(status: int, mq: int, calls: seq<Call>)

  /** What PrintTemplateMQ does once the render succeeded: open the queue
      unless it is open, then send the buffer and close the queue unless it is
      to be kept open. */
  function PostRender(t: Template, msg: seq<char>, io: Io): QueueStep
    requires t.target.Some?
  {
    var mq := OpenedMq(t, io);
    var openMq := if t.mq <= 0 then [MqOpen(t.target.value, O_WRONLY)] else [];
    if mq <= 0 then QueueStep(EBADF, mq, openMq)
    else if !io.data then QueueStep(EOK, mq, openMq)
    else
      var status := SendStatus(io);
      var close := status != EOK || !t.keepOpen;
      var calls := openMq + [MqSend(mq, msg)] + (if close then [MqClose(mq)] else []);
      QueueStep(status, if close then -1 else mq, calls)
  }

  /** The queue is opened only when it is not open, sent to only once open and
      when the buffer is there, and closed after a failed send or unless kept
      open. */
  lemma PostRenderProperties(t: Template, msg: seq<char>, io: Io, q: QueueStep)
    requires t.target.Some? && q == PostRender(t, msg, io)
    // the queue is opened only when it is not open
    ensures MqOpen(t.target.value, O_WRONLY) in q.calls <==> t.mq <= 0
    ensures forall c | c in q.calls :: c.MqOpen? || c.MqSend? || c.MqClose?
    // a queue that is still not open gives EBADF
    ensures OpenedMq(t, io) <= 0 ==> q.status == EBADF && q.mq == OpenedMq(t, io) && !Sends(q.calls)
    // a send happens exactly when the queue is open and the buffer is available
    ensures Sends(q.calls) <==> OpenedMq(t, io) > 0 && io.data
    ensures forall m, x | MqSend(m, x) in q.calls :: m == OpenedMq(t, io) && x == msg
    // after a send: errno or EOK, and the queue closed on failure or unless kept open
    ensures OpenedMq(t, io) > 0 && io.data ==>
              && q.status == SendStatus(io)
              && q.mq == (if SendStatus(io) != EOK || !t.keepOpen then -1 else OpenedMq(t, io))
              && (MqClose(OpenedMq(t, io)) in q.calls <==> SendStatus(io) != EOK || !t.keepOpen)
    ensures OpenedMq(t, io) > 0 && !io.data ==> q.status == EOK && q.mq == OpenedMq(t, io)
  {
    var mq := OpenedMq(t, io);
    var openMq := if t.mq <= 0 then [MqOpen(t.target.value, O_WRONLY)] else [];
    if mq > 0 && io.data {
      assert q.calls[|openMq|] == MqSend(mq, msg);
    }
  }

  /** PrintTemplateMQ. */
  function DeliverMq(t: Template, buf: RenderBuffer, io: Io): Outcome
  {
    if !MqReady(t, buf) then Outcome(ENOENT, t, buf, [])
    else
      var openSrc := [Open(t.file.value, O_RDONLY)];
      if io.src <= 0 then Outcome(ENOENT, t, buf, openSrc)
      else
        var after := Rendered(buf, io);
        var pre := openSrc + [Seek(buf.fd, 0)] + [Render(io.src, buf.fd)];
        if io.render != EOK then Outcome(io.render, t, after, pre + [Close(io.src)])
        else
          var q := PostRender(t, CString(after.data), io);
          Outcome(q.status, t.(mq := q.mq), after, pre + q.calls + [Close(io.src)])
  }

  /** What PrintTemplateMQ touches, in which order, and what it sends. */
  lemma DeliverMqProperties(t: Template, buf: RenderBuffer, io: Io, d: Outcome)
    requires d == DeliverMq(t, buf, io)
    ensures SameConfig(t, d.tmpl) && d.tmpl.fd == t.fd && d.buf.fd == buf.fd
    // nothing is touched unless the buffer descriptor and both names are there
    ensures !MqReady(t, buf) ==> d == Outcome(ENOENT, t, buf, [])
    ensures MqReady(t, buf) && io.src <= 0 ==> d == Outcome(ENOENT, t, buf, [Open(t.file.value, O_RDONLY)])
    // the cursor is reset before the render, so the render lands at offset 0;
    // the source is closed last
    ensures MqReady(t, buf) && io.src > 0 ==>
              && |d.calls| >= 4
              && d.calls[..3] == [Open(t.file.value, O_RDONLY), Seek(buf.fd, 0), Render(io.src, buf.fd)]
              && d.calls[|d.calls| - 1] == Close(io.src)
              && d.buf == Rendered(buf, io)
    // a failed render returns its status and opens no queue
    ensures MqReady(t, buf) && io.src > 0 && io.render != EOK ==>
              d.status == io.render && d.tmpl == t && |d.calls| == 4
    // a successful render goes on to the queue, sending the buffer up to its first NUL
    ensures MqReady(t, buf) && io.src > 0 && io.render == EOK ==>
              var q := PostRender(t, CString(d.buf.data), io);
              && d.status == q.status
              && d.tmpl == t.(mq := q.mq)
              && d.calls == d.calls[..3] + q.calls + [Close(io.src)]
  {
    if MqReady(t, buf) && io.src > 0 {
      var pre := [Open(t.file.value, O_RDONLY)] + [Seek(buf.fd, 0)] + [Render(io.src, buf.fd)];
      assert pre == [Open(t.file.value, O_RDONLY), Seek(buf.fd, 0), Render(io.src, buf.fd)];
      if io.render == EOK {
        var q := PostRender(t, CString(Rendered(buf, io).data), io);
        assert d.calls == pre + q.calls + [Close(io.src)];
        assert d.calls[..3] == pre;
      }
    }
  }

  /** The message carries the rendered bytes: all of them when they hold no
      NUL, and exactly those before the first NUL otherwise. */
  lemma {:induction false} MessageIsRender(data: seq<char>, w: seq<char>)
    ensures '\0' !in w ==> w <= CString(Overwrite(data, w))
    ensures '\0' in w ==> CString(Overwrite(data, w)) == CString(w)
    decreases |w|
  {
    if w != [] {
      var r := Overwrite(data, w);
      assert r[0] == w[0];
      if w[0] != '\0' {
        var rest := if |w| < |data| then data[1..] else [];
        assert r[1..] == Overwrite(rest, w[1..]);
        MessageIsRender(rest, w[1..]);
      }
    }
  }

  /** ProcessTemplate's switch on the template type. */
  function Deliver(t: Template, buf: RenderBuffer, io: Io): Outcome
  {
    match t.kind
    case Fd => DeliverFd(t, buf, io)
    case Mq => DeliverMq(t, buf, io)
  }

  /** A delivery changes only the handles of its template, never the one its
      kind does not use, and a descriptor delivery leaves the buffer alone. */
  lemma DeliverProperties(t: Template, buf: RenderBuffer, io: Io)
    ensures var d := Deliver(t, buf, io);
            && SameConfig(t, d.tmpl)
            && (KindExclusive(t) ==> KindExclusive(d.tmpl))
            && (t.kind == Fd ==> d.buf == buf)
  {
  }
}
