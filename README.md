# templatesvc — a verified model of the template service core

templatesvc keeps text files and message queues up to date from variables
held by a variable server. Its configuration is a JSON "config" array. Each
entry names a template file, a target (a file path, or a POSIX message queue
when "type" is "mq") and the variables that trigger it. Each entry also
carries the "append" and "keep_open" flags.

At start-up the service builds one template record per entry, with that
entry's trigger list. It resolves every trigger name to a variable handle and
asks the server for modify notifications. Afterwards it waits for signals.
For every SIG_VAR_MODIFIED it walks all templates. For every trigger whose
handle is the modified variable, it renders the template either into the
target file (PrintTemplateFD) or into a shared render buffer that it then
sends on the queue (PrintTemplateMQ).

This project models that core in Dafny.

- `types.dfy`: records and constants. Templates and trigger variables are
  records. The C linked lists are sequences, head first, so a head-prepend is
  `[x] + list`.
- `status.dfy`: how the service's loops fold statuses (`Aggregate`).
- `triggers.dfy`: trigger list construction (SetupTriggers under
  JSON_Iterate) and subscription (SetupTriggerNotification,
  SetupTriggerNotifications).
- `delivery.dfy`: the two delivery routines, as functions from a template,
  the render buffer and the collaborators' answers to the new template, the
  new buffer, the status and the calls made.
- `events.dfy`: ProcessTemplate, ProcessTemplates and main's signal loop, as
  functions over the template list, with the properties that relate several
  deliveries.
- `setup.dfy`: what SetupTemplate builds from one config entry, and what the
  configuration pass leaves.
- `service.dfy`: the service state `TemplateSvc` (TemplateSvcState). It is a
  class whose methods update the template list, the render buffer and the
  call trace in place, with the same loops as the C code. Each method is
  proved to leave exactly the state the functions above describe.

Everything the service asks of the outside world is an input:

- the answers of open, the renderer, mq_open, VARFP_GetData, mq_send and
  errno: an `Io` record per delivery attempt, drawn from `io: nat -> Io`, where
  the j-th attempt sees `io(j)`;
- the variable server's name lookup and notify answers: `VarServer`;
- calloc's success: `alloc` parameters;
- the parsed JSON: `TemplateNode`, `TriggerNode`;
- the signals: `Event`.

The calls that act on files, the render buffer, queues and the variable
server are appended to a trace (`calls`): open, close, lseek, the render
(TEMPLATE_FileToFile), mq_open, mq_send, mq_close and VAR_Notify. Properties
about opening, closing, sending and subscribing are stated over that trace.
The queries whose only effect is their answer are not traced: VAR_FindByName,
VARFP_GetData, calloc and VARSERVER_WaitSignal. Their answers are the inputs
listed above.

The model follows the C code where a reader might expect something else:

- ProcessTemplate delivers once for every matching trigger, not once per
  template: its trigger loop never stops early.
- A template with no matching trigger makes ProcessTemplate return EINVAL. So
  ProcessTemplates returns EOK only when every template matched the event.
- In PrintTemplateFD a destination that was just opened stays open when the
  template file could not be opened, even without keep_open.
- The destination file is opened with O_WRONLY|O_CREAT (plus O_APPEND in
  append mode) and never with O_TRUNC.
- mq_open is called with O_WRONLY only. PrintTemplateMQ computes a flags
  value that it never uses.
- A new template's descriptor starts at -1, but its queue starts at 0 from
  calloc, so the queue test is `mq <= 0`.
- SetupTriggerNotifications computes a status but returns nothing. The model
  returns the computed value, and its only caller ignores it.
- JSON_Iterate over the trigger array returns a failure when any element is
  malformed or any allocation fails. The template is then kept, but none of
  its triggers is ever subscribed.
- A descriptor or queue of 0 counts as a failure, since every test is `> 0`.
- When VARFP_GetData gives no buffer, PrintTemplateMQ returns EOK without
  sending anything. A queue it opened stays open even when the template is not
  kept open.

## Model

| member | source | states |
|---|---|---|
| Status.AggregateProperties | src/templatesvc.c:623-635 | a loop that starts at EOK and lets every non-EOK status overwrite the result ends with EOK exactly when every call returned EOK, and otherwise with the status of the last call that failed |
| Triggers.SetupTriggers | src/templatesvc.c:295-337 | EOK exactly for a non-null string node whose allocation succeeds, and then the new trigger (handle VAR_INVALID, the node's name) is at the head with the old list intact behind it; EINVAL exactly for a non-string or null node, ENOMEM for a failed allocation, the list unchanged in both |
| Triggers.ChainIsReversed | src/templatesvc.c:318-321 | because each trigger is prepended, the list left after the whole array is the accepted names in reverse array order, every handle still VAR_INVALID |
| Triggers.IterateTriggers | src/templatesvc.c:418-420 | JSON_Iterate with SetupTriggers visits every element in order, keeping the last failure (EINVAL for a missing array), and leaves the chained list |
| Triggers.SetupTriggerNotification | src/templatesvc.c:509-540 | EINVAL and nothing touched with a null server or name; otherwise the handle is cached from the lookup, an unresolved name gives ENOENT and no notify request, and a resolved one exactly one request, with VAR_Notify's status returned |
| Triggers.RequestsAreResolved | src/templatesvc.c:519-528 | a handle is subscribed exactly when it is valid and some trigger's name resolves to it |
| Triggers.SetupTriggerNotifications | src/templatesvc.c:460-486 | EINVAL and no change with a null server or an empty list; otherwise every trigger is subscribed in list order whatever the individual results, and the status is the fold of their statuses |
| Triggers.MatchesPositive | src/templatesvc.c:680-682 | a template matches an event exactly when one of its triggers carries the event's handle |
| Delivery.TargetFlags | src/templatesvc.c:733-759 | the destination is opened write-only and created if missing, with O_APPEND exactly in append mode and never truncated |
| Delivery.DeliverFdProperties | src/templatesvc.c:727-784 | ENOENT and nothing touched without both names; the destination is opened only when its descriptor is -1; with both descriptors open the render's status, and the destination closed and reset to -1 unless kept open; otherwise ENOENT with nothing rendered and a just-opened destination left open; the template file closed last exactly when it opened; the buffer untouched |
| Delivery.CString | src/templatesvc.c:857-860 | the queue message is the buffer up to, not including, its first NUL, as strlen measures it |
| Delivery.WriteAt | src/templatesvc.c:837-841 | a write at the buffer's offset replaces exactly the bytes it covers and keeps those before and after |
| Delivery.WriteAtStart | src/templatesvc.c:837-841 | after the cursor is reset, the render writes at offset 0 |
| Delivery.PostRenderProperties | src/templatesvc.c:843-876 | the queue is opened only when `mq <= 0`; still not open gives EBADF and no send; a send happens exactly when the queue is open and the buffer is there, on that queue with the message; after a send the status is errno or EOK, and the queue is closed and set to -1 exactly when the send failed or it is not kept open |
| Delivery.DeliverMqProperties | src/templatesvc.c:806-887 | ENOENT and nothing touched unless the buffer descriptor is positive and both names are there; ENOENT after a failed template open; otherwise the cursor is reset before the render, a failed render returns its status and opens no queue, a successful one goes on to the queue, and the template file is closed last |
| Delivery.MessageIsRender | src/templatesvc.c:837-860 | the message sent carries the rendered text: all of it when it holds no NUL, and exactly the part before the first NUL otherwise |
| Delivery.DeliverProperties | src/templatesvc.c:686-697 | a delivery changes only its template's handles, never the handle its kind does not use, and a descriptor delivery leaves the buffer alone |
| Events.ScanProperties | src/templatesvc.c:680-701 | one delivery per matching trigger, each consuming one set of answers; only handles change; with no match nothing happens |
| Events.DispatchProperties | src/templatesvc.c:668-705 | EINVAL with no delivery and nothing changed when the handle is VAR_INVALID or no trigger matches; otherwise the status of the last of exactly as many deliveries as there are matching triggers |
| Events.SweepProperties | src/templatesvc.c:615-639 | a pass visits every template and keeps every template's configuration and the exclusivity of its handles, consuming one set of answers per delivery |
| Events.SweepSkips | src/templatesvc.c:626-635 | a template the event does not concern is left unchanged and reports EINVAL |
| Events.SweepIdle | src/templatesvc.c:626-635 | a pass that concerns no template changes nothing and makes no call |
| Events.SweepStatus | src/templatesvc.c:615-639 | ProcessTemplates returns EOK exactly when every ProcessTemplate did, so only when the handle is valid and every template has a trigger for it |
| Events.RunProperties | src/templatesvc.c:257-265 | main runs one ProcessTemplates pass per SIG_VAR_MODIFIED and none for any other signal; configuration and handle exclusivity survive any number of passes |
| Events.UnresolvedNeverFires | src/templatesvc.c:673-682 | a template whose triggers were never resolved never delivers |
| Events.KeptQueueOpensOnce | src/templatesvc.c:845-868 | with healthy collaborators a queue template that is kept open opens its queue at most once over any number of deliveries, and only if it was not open |
| Events.UnkeptFileReopens | src/templatesvc.c:751-773 | with healthy collaborators a file template that is not kept open opens its destination once per delivery and ends closed |
| Events.DuplicateTriggerDeliversTwice | src/templatesvc.c:680-701 | two triggers with the event's handle deliver the template twice for one event |
| Setup.KindOf | src/templatesvc.c:393-400 | the template is a queue template exactly when "type" is the string "mq" |
| Setup.TemplateOfProperties | src/templatesvc.c:405-415 | a new template has descriptor -1 and queue 0, its kind, paths and flags from the entry, and one trigger per accepted array element, unresolved when the array was not accepted |
| Setup.BadTriggerArrayNeverFires | src/templatesvc.c:418-424 | a template whose trigger array was not fully accepted is never subscribed and never delivers |
| Setup.ConfiguredAreFresh | src/templatesvc.c:405-431 | every template the configuration pass builds starts closed, with its kind's handle unused |
| Setup.ConfiguredCount | src/templatesvc.c:407-431 | the configuration pass keeps one template per successful allocation |
| Service.TemplateSvc.constructor | src/templatesvc.c:222-226 | the state starts with no templates, the render buffer's descriptor and an empty trace |
| Service.TemplateSvc.SetupTemplate | src/templatesvc.c:370-436 | EOK exactly when the allocation succeeds, and then the new template is prepended even if trigger setup failed; its triggers are subscribed only when the whole trigger array was accepted; nothing changes otherwise; handle exclusivity is kept |
| Service.TemplateSvc.PrintTemplateFD | src/templatesvc.c:727-784 | updates the template in place, and leaves the status, template and trace that DeliverFd describes |
| Service.TemplateSvc.PrintTemplateMQ | src/templatesvc.c:806-887 | updates the template and the render buffer in place, and leaves the status, template, buffer and trace that DeliverMq describes |
| Service.TemplateSvc.ProcessTemplate | src/templatesvc.c:668-705 | walks every trigger, calling the routine for the template's kind on each match, and leaves the state Dispatch describes; only this template changes |
| Service.TemplateSvc.ProcessTemplates | src/templatesvc.c:615-639 | walks every template in list order, never stopping early, and leaves the state Sweep describes, with the folded status; handle exclusivity is kept |
| Service.TemplateSvc.Configure | src/templatesvc.c:255 | JSON_Iterate with SetupTemplate sets up every entry in order, newest first, and returns the fold of their statuses; handle exclusivity is kept |
| Service.TemplateSvc.Serve | src/templatesvc.c:257-265 | the signal loop leaves the state Run describes: one ProcessTemplates pass per modification signal, in order |

## Left out

- JSON parsing (JSON_Process, JSON_Find, JSON_GetStr, JSON_GetBool) is a foreign library. The parsed entries are inputs. JSON_Iterate is modelled as visiting every element in order and returning the last non-EOK status, or EINVAL for a missing array. Its source is not part of this model.
- Command-line handling (ProcessOptions, usage), SetupVarFP (creating the shared-memory buffer) and the termination signal handlers are not modelled. The buffer's descriptor is a constructor parameter.
- main's VARSERVER_Open and VARSERVER_Close, and its guard on a null server, are not modelled. The service holds an optional server, and Configure runs whatever it is.
- The renderer TEMPLATE_FileToFile is not visible. It is an oracle giving a status and, for the queue path, the bytes written from offset 0. Whether stale bytes beyond a shorter render stay in the buffer is not claimed.
- open, close, lseek, mq_open, mq_send and mq_close are not performed. The results the code uses (those of open, mq_open and mq_send, and errno) are inputs, and the calls are recorded in a trace. VARSERVER_WaitSignal is not performed either: the signals it would return are an input sequence.
- lseek of the render buffer is assumed to succeed: the model always writes the render at offset 0. The C code ignores lseek's result, so after a failed lseek the render would land at the old cursor; the model does not capture that case.
- printf, fprintf and syslog diagnostics are left out.
- The fixed capacity of the render buffer (VARFP_SIZE) is not modelled: the buffer is an unbounded sequence.
- The null checks on pState, pTemplate and pNode are left out: the model always has a state and a template. The ENOTSUP branch of ProcessTemplate is left out because a template's kind is always TMPL_FD or TMPL_MQ.
- VAR_INVALID is taken as 0 and EOK as 0, because the variable server's headers are not part of this model. The errno and open flag values are the Linux ones.
- Service.TemplateSvc.Serve: main's loop never ends; the model covers any finite prefix of the signals it receives.
- Events.KeptQueueOpensOnce: stated only when every collaborator answer is healthy (positive descriptors and queue, successful render and send).
- Events.UnkeptFileReopens: stated only when every collaborator answer is healthy.
