/** Status codes, flags and the records of the template service.

    Templates and trigger variables are records; the linked lists that hold
    them in the C program are sequences, head first, so that a head-prepend
    is `[x] + list`. */
module Types {

  datatype Option<+T> = None | Some(value: T)

  // errno values (Linux); EOK is the variable server's name for success
  const EOK: int := 0
  const ENOENT: int := 2
  const EBADF: int := 9
  const ENOMEM: int := 12
  const EINVAL: int := 22

  /** The variable server's "no such variable" handle; calloc'ed handles start here too. */
  const VAR_INVALID: int := 0

  // open(2) and mq_open(3) flags (Linux values)
  const O_RDONLY: bv32 := 0x0
  const O_WRONLY: bv32 := 0x1
  const O_CREAT: bv32 := 0x40
  const O_TRUNC: bv32 := 0x200
  const O_APPEND: bv32 := 0x400

  /** TMPL_FD / TMPL_MQ */
  datatype Kind = Fd | Mq

  /** A trigger variable: its name and the handle cached by subscription. */
  datatype TriggerVar = TriggerVar(hVar: int, name: Option<string>)

  /** One template definition with its delivery handles. */
  datatype Template = Template(
    triggers: seq<TriggerVar>,
    file: Option<string>,     // templateFileName
    target: Option<string>,   // destination path or queue name
    kind: Kind,
    fd: int,                  // destination descriptor, -1 when closed
    mq: int,                  // destination queue, <= 0 when not open
    keepOpen: bool,
    append: bool)

  /** The shared render buffer: its descriptor (varFd), write offset and contents. */
  datatype RenderBuffer = RenderBuffer(fd: int, cursor: nat, data: seq<char>)

  /** A call the service makes to a collaborator, as recorded in its trace. */
  datatype Call =
    | Open(path: string, flags: bv32)
    | Close(fd: int)
    | Seek(fd: int, offset: int)
    | Render(src: int, dst: int)          // TEMPLATE_FileToFile
    | MqOpen(name: string, flags: bv32)
    | MqSend(mq: int, msg: seq<char>)
    | MqClose(mq: int)
    | Notify(hVar: int)                   // VAR_Notify(..., NOTIFY_MODIFIED)

  /** What the collaborators answer during one delivery attempt:
      open() of the template and of the target, the render status and the bytes
      it wrote, mq_open(), whether VARFP_GetData gave a pointer, mq_send() and errno. */
  datatype Io = Io(
    src: int,
    dst: int,
    render: int,
    written: seq<char>,
    mq: int,
    data: bool,
    sendRc: int,
    errno: int)

  /** The variable server: name resolution and the answer to a notify request. */
  datatype VarServer = VarServer(lookup: string -> int, notify: int -> int)

  /** An element of a template's "trigger" array, as the JSON parser delivers it. */
  datatype TriggerNode =
    | StrNode(str: Option<string>)   // a string variable (possibly a null string)
    | OtherVar                       // a variable of another type
    | NotVar                         // an object or array

  /** One entry of the "config" array, already parsed. */
  datatype TemplateNode = TemplateNode(
    template: Option<string>,
    typ: Option<string>,
    target: Option<string>,
    append: bool,
    keepOpen: bool,
    trigger: Option<seq<TriggerNode>>)

  /** Signals delivered by VARSERVER_WaitSignal, with their value. */
  datatype SignalKind = VarModified | OtherSignal(sig: int)
  datatype Event = Event(sig: SignalKind, val: int)

  /** Everything about a template except its two delivery handles. */
  predicate SameConfig(t: Template, u: Template)
  {
    u == t.(fd := u.fd, mq := u.mq)
  }

  /** The delivery kind decides which handle may be in use: an Fd template
      never touches its queue, an Mq template never its descriptor. */
  predicate KindExclusive(t: Template)
  {
    (t.kind == Fd ==> t.mq == 0) && (t.kind == Mq ==> t.fd == -1)
  }

  function Last(s: seq<int>): int
    requires s != []
  {
    s[|s| - 1]
  }

  lemma AppendAssoc<T>(a: seq<T>, b: seq<T>, c: seq<T>)
    ensures a + (b + c) == a + b + c
  {
  }

  /** Replacing the element that follows the prefix `a`. */
  lemma UpdateAfter<T>(a: seq<T>, x: T, y: T, b: seq<T>)
    ensures (a + ([x] + b))[|a| := y] == a + [y] + b
  {
  }
}
