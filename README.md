# Classroom allocation with a load-balancing broker and a standby server, in Dafny

This project models the core of a distributed classroom-allocation system for a university. The model is written in Dafny and its properties are proved.

The system has these parts:

- **Academic programs** (`programa_academico.py`) read a faculty table and ask the user for terms. They build one room request per program and send the requests round-robin to the faculty servers.
- **Faculty servers** (`facultad.py`) check that the request names a known faculty and tag it with a distance and their instance id. They pass it to the broker. From the broker's reply frames they pick the last frame that holds JSON.
- **The load-balancing broker** (`load_balancer_broker.py`) keeps a FIFO (first in, first out) queue of idle servers, the set of registered ones, a table of clients and a pending-request counter. It forwards client requests to the oldest idle server. It forwards replies back to the client, after checking that the last frame is JSON.
- **The allocation server** (`DTI_servidor.py`) keeps the room table (`aulas`). It serves a request in three steps, each in table order:
  - it takes free classrooms (`salón`);
  - it takes free laboratories;
  - to cover a shortage of laboratories, it turns still-free classrooms into mobile rooms (`aula móvil`).

  It also counts rooms by kind and status, and resets the whole table.
- **The standby server** (`DTI_servidor_backup.py`) watches the primary's heartbeat and applies room snapshots. It keeps a CSV backup. When the primary falls silent, it promotes itself and serves requests with at most ten running at once.
- **Metrics** come from three sources:
  - a collector of server response times and per-program outcomes (`recolector_metricas.py`), fed by two decorators (`decoradores_metricas.py`);
  - a response-time monitor with two bounded buffers (`monitor_metricas.py`);
  - a per-program outcome monitor (`monitor_metricas_programa.py`).

There is one Dafny module per source file, plus three shared ones:

- `dicts.dfy` (`Dicts`): an insertion-ordered dictionary as a sequence of entries with distinct keys. `Put` overwrites in place or appends, as a Python `dict` does.
- `wire.dfy` (`Wire`): bytes and frames, JSON values, and a `Codec` parameter that stands for `json.loads`/`json.dumps` over UTF-8. Decoding has three outcomes: a value, text that is not JSON, or bytes that are not UTF-8. Python raises a different exception for each of the last two, and the code handles them differently.
- `pytext.dfy` (`PyText`): the Python string operations the code relies on:
  - `strip` and `split`;
  - `split` on the first or last separator;
  - `lower` on ASCII and Latin-1 letters;
  - `isdigit`/`int`, over ASCII digits only;
  - slicing with a negative bound;
  - negative indexing.

State that the source changes in place is a Dafny `class` whose methods list what they modify:

- `Rooms.RoomServer`, `Broker.LoadBalancer`, `Standby.StandbyServer`;
- `Faculty.FacultyServer`;
- `Collector.ServerStats`, `Collector.MetricsCollector`;
- `Monitor.MetricsMonitor`, `ProgramMonitor.ProgramMonitor`.

Every loop of the source is a `while` loop proved against a specification function:
- seizing classrooms and taking rooms one by one;
- counting, reading the faculty file and scanning reply frames;
- merging snapshots and writing CSV rows;
- asking for numbers, building requests and choosing sockets.

Lemmas then state what the source promises about those functions.

Inputs that the source reads from the outside world are parameters of the model:
- clock readings and timestamps;
- the JSON codec;
- the contents of the files;
- whether a file write succeeds (`Rooms.Store`);
- the broker's reply to a faculty server;
- the messages received.

Outputs are the values that the methods return. Messages the source would send are returned as sequences of frames.

In three places the code does less than its comments or names suggest, and the model follows the code:
- the broker queues a server again on every `READY` (load_balancer_broker.py:118-124); nothing removes a duplicate, so a server that registers twice can be sent two requests;
- the allocation server has no "unavailable" answer (DTI_servidor.py:122-176): a short supply gives shorter lists;
- at promotion the standby does not apply its held snapshot, although the comment at DTI_servidor_backup.py:274 says it does. The merge runs before `servidor_activo` is set (line 278), so it returns at once.

## Model

| member | source | states |
|---|---|---|
| Rooms.KindOf | DTI_servidor.py:35-38 | `TipoAula(text)` succeeds exactly on the three stored texts, and each text names one kind |
| Rooms.StatusOf | DTI_servidor.py:40-42 | `EstadoAula(text)` succeeds exactly on the two stored texts |
| Rooms.FromRowsWellFormed | DTI_servidor.py:71-86 | loading the room file keys every room by its own id, one entry per id (a later row with the same id replaces the earlier one) |
| Rooms.FromRowsValues | DTI_servidor.py:71-109 | loading the rows that saving a table writes gives back that same table, in the same order |
| Rooms.PositionsFacts | DTI_servidor.py:136-138 | the positions that a filter selects are increasing, each one passes the filter, and every position that passes is selected |
| Rooms.PositionsCharacterized | DTI_servidor.py:136-138 | any increasing list of exactly the passing positions is the one that `Positions` gives |
| Rooms.Take | DTI_servidor.py:127-131 | a taken room is assigned to the faculty and program, both dates are the one timestamp, and its id and capacity are kept; it becomes a mobile room only when converted |
| Rooms.TakeAtKeepsKeys | DTI_servidor.py:122-164 | taking rooms keeps the table's ids, in order, and keeps each room under its own id |
| Rooms.Stages | DTI_servidor.py:121-164 | the allocation runs in three stages: the first `salones` free classrooms, then the labs still free (sliced with Python's rule), then, when the labs fall short, the shortfall of free classrooms not already taken, converted |
| Rooms.AllocationTaken | DTI_servidor.py:122-164 | every classroom, lab and converted room taken was free before the call and was of the right kind; the three lists are disjoint |
| Rooms.AllocationEffect | DTI_servidor.py:122-164 | after an allocation exactly the picked rooms are changed, as `Take` describes, and every other entry is unchanged; the ids and their order stay |
| Rooms.AllocationPicks | DTI_servidor.py:122-164 | as seen in the original table: the classrooms are a prefix of the free ones; the labs are the free labs sliced by `laboratorios`; conversion happens only on a lab shortage, and takes the next free classrooms |
| Rooms.LabsUnchanged | DTI_servidor.py:134-138 | taking classrooms first leaves the list of free labs as it was |
| Rooms.RemainingSalons | DTI_servidor.py:148-157 | the classrooms offered for conversion are exactly the free classrooms after those taken in the first stage |
| Rooms.AllocationDistinctIds | DTI_servidor.py:122-175 | the ids of the rooms returned are pairwise distinct |
| Rooms.CountField | DTI_servidor.py:116-117 | a count is missing exactly when its key is; an integer is a number, a boolean the number 0 or 1 (Python compares and slices with it as with an integer), `null` is kept as `None`, and any other value is kept by its type name |
| Rooms.Interrupted | DTI_servidor.py:122-150 | a count that is not a number stops the stages with a `TypeError`, exactly in these cases. A bad `salones` raises at the first room, before anything changes. A bad `laboratorios` raises at the slice, after the classrooms were taken as for no laboratories. A `null` one raises at the comparison, after every free laboratory was taken too. Every room changed by then was free, is now assigned, and keeps its kind |
| Rooms.AllLabsTaken | DTI_servidor.py:135-146 | taking the slice `[:None]` of the free laboratories leaves no laboratory free, and changes only free rooms, none of them converted |
| Rooms.RoomServer.StopAtLabs | DTI_servidor.py:122-150 | with a `laboratorios` that is not a number, the table becomes the one `Attempted` stops at: the classrooms taken in the loop, and for `null` every free laboratory; the reply is the `TypeError` text and nothing is saved |
| Rooms.Assign | DTI_servidor.py:111-198 | a missing field gives the `KeyError` reply on the unchanged table; the file is written only when the stages complete and the write succeeds, and a reply reporting an allocation implies that write |
| Rooms.ReplyShape | DTI_servidor.py:168-198 | a reply reports an allocation exactly when saving succeeded and a `semestre` was present. Its lab list is labs followed by converted rooms, and it has a notice exactly when a room was converted. A missing `semestre` gives the `KeyError` text after the table was changed |
| Rooms.StatsOf | DTI_servidor.py:200-225 | the three kind totals add up to the table size, and each free or in-use count is at most its kind's total |
| Rooms.StatsOfSnoc | DTI_servidor.py:211-223 | counting one more room applies the counting rule to that room only |
| Rooms.Cleared | DTI_servidor.py:231-239 | a reset room is free, with empty faculty, program and dates; a mobile room becomes a classroom again; id, capacity and lab kind are kept |
| Rooms.ClearedTable | DTI_servidor.py:231-239 | resetting acts room by room under the same ids |
| Rooms.ClearIdempotent | DTI_servidor.py:227-242 | resetting twice is the same as resetting once |
| Rooms.StatsAfterClear | DTI_servidor.py:227-256 | after a reset there are no mobile rooms, and every classroom and lab is free |
| Rooms.SalonPicksHead | DTI_servidor.py:122-132 | the classroom loop with its length check picks the first `salones` free classrooms in table order |
| Rooms.RoomServer.constructor | DTI_servidor.py:56-86 | the server starts with the table that its rows load into, and remembers those rows as stored |
| Rooms.RoomServer.Save | DTI_servidor.py:92-109 | saving writes the table's rooms in order when the write succeeds, and leaves the stored rows otherwise |
| Rooms.RoomServer.Allocate | DTI_servidor.py:111-198 | the reply, the new table and the saved rows are those `Assign` gives. A missing required field gives the `KeyError` reply, with table and file untouched. With two numeric counts the table becomes the allocation's table, it is saved, and the reply is the one `ReplyFor` describes. A count that stops the stages leaves the rooms taken so far taken, returns the `TypeError` text, and writes nothing |
| Rooms.RoomServer.RunStages | DTI_servidor.py:121-164 | the three loops leave the table as the allocation specifies |
| Rooms.RoomServer.TakeSalons | DTI_servidor.py:122-132 | the first loop picks the first `salones` free classrooms and takes them |
| Rooms.RoomServer.TakeEach | DTI_servidor.py:140-146 | taking the rows at the given positions one at a time gives `TakeAt` of them |
| Rooms.RoomServer.Statistics | DTI_servidor.py:200-225 | the counting loop computes `StatsOf` of the table |
| Rooms.Reset | DTI_servidor.py:227-242 | `limpiar_sistema` resets every room and then saves the table |
| Broker.Distance | load_balancer_broker.py:193 | the distance from a faculty name is between 1 and 10 |
| Broker.AdmissionOf | load_balancer_broker.py:184-210 | a known client is counted for any JSON payload. A new client is recorded only for an object whose `facultad` is missing or can be summed character by character: a text, a list of one-character texts, or an object with one-character keys. It keeps that value, and its distance comes from those characters. Any other payload changes nothing |
| Broker.Iterated | load_balancer_broker.py:191-193 | `for c in v` with `ord(c)` succeeds on a text, on a list whose elements are all one-character texts and on an object whose keys all are, yielding those characters in order; it raises on every other value |
| Broker.ClientReplyForwarding | load_balancer_broker.py:149-173 | a reply goes to the client as `[client, empty] + rest`; its last frame is replaced by the fixed error exactly when it is not JSON; with a codec that reads back the error objects it writes, the last frame the client receives is always JSON |
| Broker.DispatchesInOrder | load_balancer_broker.py:218-224 | n dispatches from the queue pick its first n servers, in order |
| Broker.ClientStepForwards | load_balancer_broker.py:175-224 | with a server queued, a client message of three frames is forwarded to the oldest idle server, which leaves the queue, and the pending count rises exactly when the payload is admitted |
| Broker.LoadBalancer.constructor | load_balancer_broker.py:37-45 | a broker starts with no idle servers, no servers, no clients and no pending requests |
| Broker.LoadBalancer.HandleWorkerMessage | load_balancer_broker.py:112-173 | a short message registers its sender again, even if it is already queued; a reply puts its server back at the end of the queue and lowers `pending` for a known client; the reply is forwarded as `ClientReply` describes; an empty message changes nothing |
| Broker.LoadBalancer.NextWorker | load_balancer_broker.py:218-224 | the oldest idle server is removed and returned; there is none on an empty queue |
| Broker.LoadBalancer.HandleClientMessage | load_balancer_broker.py:175-216 | the frames are forwarded unchanged after `[server, empty]` to the oldest idle server, even when the payload is not JSON; the client table and counter change as `AdmissionOf` says, a new client entering with a count of one; too few frames change nothing; the new state is `ClientStep` of the old |
| Broker.LoadBalancer.Step | load_balancer_broker.py:98-108 | a ready worker message is handled first, and the state becomes `WorkerStep` of the old one; a client message is then handled, as `ClientStep` of that state, only when a server is idle, so a message taken is never refused for want of a server; otherwise it is left waiting and the state is the one after the worker message |
| Standby.AulasOf | DTI_servidor_backup.py:199-230 | the `aulas` lookup of a state: records exactly when `aulas` is an object; a state that cannot be searched raises |
| Standby.ReadRecords | DTI_servidor_backup.py:229-252 | each snapshot record is read field by field under its own key |
| Standby.RecordRoom | DTI_servidor_backup.py:233-252 | a record makes a room only when all its fields have the right types, under the given id |
| Standby.UpdateFields | DTI_servidor_backup.py:233-240 | a known room has its seven other fields overwritten, and keeps its id; a bad field stops the update, which is then partial |
| Standby.NewRoom | DTI_servidor_backup.py:243-252 | an unseen id makes a new room from the record's own `id` field |
| Standby.MergeStep | DTI_servidor_backup.py:230-252 | one upsert: a known id is rewritten in place, an unseen one is appended; every other room is unchanged and the order is kept |
| Standby.MergeKeeps | DTI_servidor_backup.py:222-258 | rooms whose ids the snapshot lacks are kept; existing ids keep their order |
| Standby.MergeApplies | DTI_servidor_backup.py:222-258 | after a merge that completes, every room of the snapshot reads as the snapshot says |
| Standby.MergeStable | DTI_servidor_backup.py:222-258 | a table that already holds every record of a snapshot is left as it is by the merge |
| Standby.MergeIdempotent | DTI_servidor_backup.py:222-258 | applying the same snapshot twice gives the table that applying it once gives |
| Standby.MergeWellFormed | DTI_servidor_backup.py:222-258 | a snapshot whose records carry their own ids keeps every room under its own id |
| Standby.MergeStuck | DTI_servidor_backup.py:224-258 | once a record raises, the rest of the snapshot is not applied |
| Standby.LoadRowsKeyed | DTI_servidor_backup.py:93-105 | the rows loaded from the backup are keyed by distinct ids, each equal to the record's own `id` |
| Standby.LoadBackup | DTI_servidor_backup.py:82-112 | reading the backup always gives a state whose `aulas` is an object of records. Records come from a header of at least 8 columns and rows of at least 8 cells. A missing or unreadable file gives no records |
| Standby.RecordRow | DTI_servidor_backup.py:208-218 | a record writes an eight-cell row, or raises |
| Standby.JsonRowsStuck | DTI_servidor_backup.py:201-220 | once a record raises, no later row is written |
| Standby.SnapshotRows | DTI_servidor_backup.py:208-218 | the writing loop writes the rows up to the first record that raises |
| Standby.RoomRowWritten | DTI_servidor_backup.py:114-128 | a room written from a snapshot record gives the same row as written from the room itself |
| Standby.RoomRowLoaded | DTI_servidor_backup.py:94-105 | a room's row, with a non-negative capacity, loads back to that room's record |
| Standby.RoomRecordRead | DTI_servidor_backup.py:233-252 | merging a room's own record reads every field back as it is |
| Standby.LoadTableRows | DTI_servidor_backup.py:93-128 | the rows written from a table load back to the table's records, in order |
| Standby.TableRows | DTI_servidor_backup.py:114-128 | the backup rows of a table are one row per room, in table order |
| Standby.BackupRoundTrip | DTI_servidor_backup.py:82-132 | a backup written from a table with non-negative capacities loads back to that table's snapshot |
| Standby.TableRowsWritten | DTI_servidor_backup.py:199-218 | writing a snapshot of a table writes every row of that table |
| Standby.SnapshotWritesTable | DTI_servidor_backup.py:114-132 | writing from a table's snapshot gives the same file as writing from the table |
| Standby.MergeRestores | DTI_servidor_backup.py:222-258 | merging a table's snapshot into an empty table rebuilds that table |
| Standby.FailoverRestores | DTI_servidor_backup.py:82-258 | a table saved to the backup file and loaded back is rebuilt exactly by merging |
| Standby.Turn | DTI_servidor_backup.py:333-386 | one corrected turn of the worker: a request is admitted only with a permit free, and it then holds that permit |
| Standby.AsWrittenReleasesTwice | DTI_servidor_backup.py:384-425 | as written, a request taken when nothing else is waiting, once finished, leaves eleven permits |
| Standby.TurnBalanced | DTI_servidor_backup.py:333-386 | the corrected turn keeps every permit free or held by a running request, so at most ten run at once |
| Standby.FinishedBalanced | DTI_servidor_backup.py:418-425 | finishing a running request keeps the permits balanced and at most ten |
| Standby.StandbyServer.constructor | DTI_servidor_backup.py:44-112 | a standby starts passive, the primary taken as alive, ten free permits, no server, and the state loaded from the backup file |
| Standby.StandbyServer.Beat | DTI_servidor_backup.py:145-151 | a heartbeat records its time and marks the primary alive; nothing else changes, and an active standby stays active |
| Standby.StandbyServer.Timeout | DTI_servidor_backup.py:152-160 | silence marks the primary dead; only the alive-to-dead transition of a passive standby activates it; a standby once active stays active |
| Standby.StandbyServer.Activate | DTI_servidor_backup.py:260-289 | activation creates a server from the room file, starts the worker and sends `READY`; the held snapshot is not applied, because the merge runs before the standby is active |
| Standby.StandbyServer.Merge | DTI_servidor_backup.py:222-258 | the merge acts only on an active standby with a server; it then upserts the snapshot's records and saves the table when every record was applied |
| Standby.StandbyServer.MergeRecords | DTI_servidor_backup.py:229-252 | the upsert loop computes `MergeAll` of the table and the records |
| Standby.StandbyServer.WriteFromSnapshot | DTI_servidor_backup.py:199-220 | the backup file becomes what writing the held state gives |
| Standby.StandbyServer.WriteFromServer | DTI_servidor_backup.py:114-132 | with a server, the backup file becomes that server's table; without one nothing is written |
| Standby.StandbyServer.ProcessSync | DTI_servidor_backup.py:183-197 | a sync message that parses replaces the held state wholesale and is written to the backup file. On an active standby with a server it is merged: the table and the saved rows change exactly as `Merge` says for the new state. An inactive standby's server is untouched, and a message that does not parse changes nothing |
| Standby.StandbyServer.HandleRequest | DTI_servidor_backup.py:427-482 | an inactive standby sends nothing and changes nothing. A payload that is not JSON, or not an object, gets the error and `READY`, with table, saved rows and file unchanged. An object is allocated; the table and the saved rows are what `Assign` leaves, also when a bad count stopped it part way; the reply and `READY` are sent; and the backup file is rewritten from the new table |
| Standby.StandbyServer.TrackedRequest | DTI_servidor_backup.py:405-425 | the request has exactly the effects `HandleRequest` has (messages, table, saved rows, backup file); then, whatever it did, the running count falls by one and the permit is released exactly once |
| Standby.StandbyServer.PollOnce | DTI_servidor_backup.py:333-386 | the corrected turn (see Findings): as in the code, a message is taken only with a permit free and a payload that is not UTF-8 ends the worker; one of at least four frames is admitted once and, unlike the code at lines 384-386, keeps its permit until its request finishes |
| Standby.StandbyServer.Clean | DTI_servidor_backup.py:374-378 | the `limpiar` command resets and saves the server's rooms, then rewrites the backup file |
| Faculty.LineParts | facultad.py:49 | a line is stripped and split on `", "` into at least one part |
| Faculty.FacultiesOfDistinct | facultad.py:45-52 | the faculty table has one entry per faculty name |
| Faculty.FacultiesOfAbsent | facultad.py:48-51 | a name that no line of two or more parts defines is not in the table |
| Faculty.FacultiesOfLatest | facultad.py:48-51 | a faculty maps to the programs of the last line that defines it |
| Faculty.LineRejoins | facultad.py:49-51 | the parts of a line, joined again with `", "`, give the stripped line back |
| Faculty.ReadFaculties | facultad.py:29-55 | the file's lines of two or more parts make the table; a file that fails to open or read gives an empty table |
| Faculty.InstanceAfterLastColon | facultad.py:203 | the instance id is the text after the URL's last `:`, or the whole URL without one |
| Faculty.ScanNone | facultad.py:114-122 | the reverse scan finds nothing exactly when every frame is empty or not JSON |
| Faculty.ScanStops | facultad.py:114-122 | the scan stops at the last frame that is not skipped: its value if JSON, its decoding error if not UTF-8 |
| Faculty.ExtractReply | facultad.py:114-122 | the scanning loop computes `ScanFrom` over all frames |
| Faculty.Answer | facultad.py:124-168 | the reply is the found value exactly when it is truthy; no value or a falsy one gives the fixed error; the ZMQ errors are `error_zmq`; every other reply is an `error` object |
| Faculty.NoJsonGivesFixedError | facultad.py:114-142 | a reply with no JSON frame gives `{"error": "No se pudo extraer datos JSON de la respuesta"}` |
| Faculty.TaggedMembers | facultad.py:102 | the request sent keeps its fields and gains `facultad_instance` and `distance`, the distance between 1 and 10 |
| Faculty.CheckOf | facultad.py:240 | a request is valid exactly when its `facultad` is text naming a known faculty; a list or object there raises `unhashable type` |
| Faculty.FacultyServer.constructor | facultad.py:196-227 | the server starts with the faculty table and the instance id of its URL |
| Faculty.FacultyServer.Handle | facultad.py:230-283 | bad text or JSON gets its error without counting. Other messages are counted. An unknown faculty is rejected and recorded, without being forwarded. A known one is tagged, forwarded, and answered with the broker's reply |
| Programs.LoadFaculties | programa_academico.py:10-35 | a missing file gives an empty table; otherwise the lines of two or more parts make the table |
| Programs.AcceptsRange | programa_academico.py:56-59 | without a (non-zero) maximum every number is accepted, also one below the minimum; with one, exactly the closed range is |
| Programs.AskedFirstAnswer | programa_academico.py:53-61 | the retry loop returns the first line that parses to an accepted number, after refusing every line before it |
| Programs.AskNumber | programa_academico.py:41-61 | the input loop computes `Asked` and consumes the lines it read |
| Programs.TermsRanges | programa_academico.py:144-146 | the semester read is between 1 and 10 |
| Programs.AskTerms | programa_academico.py:144-146 | the three numbers are read in order from the remaining input |
| Programs.Pick | programa_academico.py:85-90 | a token picks at most one faculty |
| Programs.PickFromTable | programa_academico.py:85-90 | each pick is a faculty of the table with its programs, and `"0"` picks the last one |
| Programs.PicksAppend | programa_academico.py:83-92 | picks follow token order and keep duplicates |
| Programs.Select | programa_academico.py:63-92 | an empty table gives nothing; otherwise each token is picked in turn |
| Programs.NewRequestReadsBack | programa_academico.py:123-132 | a request holds exactly its six fields, with `capacidad_min` 30, and the allocation server reads them back with none missing |
| Programs.PairsCount | programa_academico.py:148-151 | there are as many (faculty, program) pairs as programs in the selection |
| Programs.CollectiveCount | programa_academico.py:148-152 | a collective request makes one request per program |
| Programs.Collective | programa_academico.py:134-152 | one request per pair, faculty by faculty and program by program, all with the same terms |
| Programs.IndividualCount | programa_academico.py:164-174 | individual requests, one per pair in order, each with the terms read for it |
| Programs.Individual | programa_academico.py:154-174 | the loop reads terms anew for every pair and builds `IndividualOf` |
| Programs.SendAll | programa_academico.py:176-197 | the k-th request goes on socket k mod n; with no sockets the first request fails |
| Collector.ServerStats.constructor | recolector_metricas.py:31-36 | server statistics start with no times and every counter at zero |
| Collector.ServerStats.AddMetric | recolector_metricas.py:38-45 | one time is appended, the total rises by one, and exactly one of successes and failures rises; the counters keep adding up |
| Collector.ServerStats.Summary | recolector_metricas.py:47-68 | no times give zeros; otherwise the count is the number of times, the minimum is at most the maximum, and the counters are reported |
| Collector.RecordedCounts | recolector_metricas.py:161-171 | a known result adds one to its own counter and to the total. An unknown one adds none. The time is set either way |
| Collector.ExportOf | recolector_metricas.py:183-193 | an exported total is the sum of its four exported counters |
| Collector.ExportsKeepKeys | recolector_metricas.py:178-195 | the export keeps every key, in order |
| Collector.MetricsCollector.constructor | recolector_metricas.py:112-115 | a collector starts with empty server statistics and no program records |
| Collector.MetricsCollector.FinishServerMeasurement | recolector_metricas.py:121-138 | the elapsed time is returned and recorded with its outcome |
| Collector.MetricsCollector.RegisterProgram | recolector_metricas.py:140-171 | the `facultad\|programa` record is created zeroed on first use and then updated; the rest stay |
| Collector.MetricsCollector.Clear | recolector_metricas.py:197-201 | server statistics are zeroed and no program records remain |
| Collector.RegisterTouchesOne | recolector_metricas.py:151-171 | registering touches only the program's own record, and a new record has a total of one for a known result |
| Decorators.MeasureServer | decoradores_metricas.py:24-37 | the outcome passes through; success is recorded exactly for a return that is not a dict with `error` |
| Decorators.ClassifyNames | decoradores_metricas.py:60-72 | the classification is one of the four counted names. It is "exitoso" exactly when the server decorator counts a success. For a text error, the faculty rejection is looked for before "comunicación" |
| Decorators.RecordProgram | decoradores_metricas.py:52-86 | a request that is not a dict raises before recording. Otherwise one result is recorded, with `facultad`/`programa` defaulting to "Desconocida"/"Desconocido". An exception is recorded as a communication error and re-raised |
| Decorators.RecordProgramReturns | decoradores_metricas.py:56-79 | a returned value passes back unchanged exactly when classifying it raised nothing, and its record carries the classification |
| Decorators.ErrorObjectClassified | decoradores_metricas.py:60-68 | the reply `{"error": msg}` is classified by the message |
| Decorators.ContainsLower | decoradores_metricas.py:65 | lower-casing keeps every occurrence of a piece, lower-cased |
| Decorators.RejectionClassified | decoradores_metricas.py:63-64 | any error text containing "Facultad no válida" is a faculty rejection |
| Decorators.InvalidFacultyClassified | decoradores_metricas.py:63-64 | the faculty server's rejection of an unknown faculty counts as a faculty rejection |
| Decorators.CommunicationClassified | decoradores_metricas.py:63-66 | an error mentioning "comunicación" is a faculty rejection or a communication error |
| Decorators.ZmqFailureClassified | decoradores_metricas.py:63-66 | the faculty's reply to a ZMQ failure is never counted as a success or a server rejection |
| Monitor.AppendedKeepsNewest | monitor_metricas.py:33-36 | a bounded buffer keeps exactly the newest 1000 records appended, the new one last |
| Monitor.Minimum | monitor_metricas.py:140 | `min` is one of the times and at most each of them |
| Monitor.Maximum | monitor_metricas.py:141 | `max` is one of the times and at least each of them |
| Monitor.StatsOf | monitor_metricas.py:127-143 | no times give zeros; otherwise the count is the number of times and the minimum and maximum bound every time |
| Monitor.GroupGet | monitor_metricas.py:336-344 | after a grouping loop, a faculty's list is what it held followed by exactly its times, and a faculty appears only if some record carries it |
| Monitor.GroupCount | monitor_metricas.py:336-344 | a grouping loop adds one time per record to its own side and none to the other |
| Monitor.TwoGroups | monitor_metricas.py:330-344 | after both loops a faculty holds exactly its server times and its program times, and is present only if one of them is not empty |
| Monitor.DetailedGet | monitor_metricas.py:346-369 | a faculty is summarised exactly when it has times, and the summary is of those times |
| Monitor.ByFaculty | monitor_metricas.py:323-369 | the per-faculty report has a faculty exactly when some record carries it, summarised from its own times |
| Monitor.SummarizedCounts | monitor_metricas.py:351-367 | a side's sub-entry exists exactly when its list is not empty, and it counts that list |
| Monitor.GroupingCounts | monitor_metricas.py:336-344 | the grouped lists hold as many times as the two buffers |
| Monitor.MeasuredAddsUp | monitor_metricas.py:323-369 | the measurement counts of the report add up to the two buffer lengths |
| Monitor.MetricsMonitor.constructor | monitor_metricas.py:22-43 | a monitor starts with empty buffers, no requests in progress and zero counters |
| Monitor.MetricsMonitor.StartRequest | monitor_metricas.py:56-72 | the id's start is recorded, replacing an earlier one; other ids are untouched |
| Monitor.MetricsMonitor.FinishRequest | monitor_metricas.py:74-100 | a known id is removed, its duration appended and counted and returned; an unknown id changes nothing and gives `None` |
| Monitor.MetricsMonitor.RecordServerTime | monitor_metricas.py:102-118 | one record is appended to the bounded buffer and one response counted, also past the bound |
| Monitor.MetricsMonitor.ServerMetrics | monitor_metricas.py:120-143 | the count is the buffer length and the minimum is at most the maximum |
| Monitor.MetricsMonitor.ProgramMetrics | monitor_metricas.py:145-168 | the count is the buffer length and the minimum is at most the maximum |
| Monitor.MetricsMonitor.GeneralStats | monitor_metricas.py:186-190 | the in-progress count is the number of ids awaited |
| ProgramMonitor.Key | monitor_metricas_programa.py:45-56 | a key always holds a `\|` |
| ProgramMonitor.KeySplits | monitor_metricas_programa.py:56-128 | splitting a key on its first `\|` gives back the faculty and the program when the faculty has no `\|` |
| ProgramMonitor.BumpedCounts | monitor_metricas_programa.py:58-115 | a `registrar_*` call adds one to its own counter and leaves the other three; the total rises by one; the faculty and time are set |
| ProgramMonitor.UnseenIsZero | monitor_metricas_programa.py:36-43 | a program never seen starts with all four counters at zero |
| ProgramMonitor.SummaryOf | monitor_metricas_programa.py:127-158 | a summary's total is the sum of its four counters, and its faculty and program rejoin to the key |
| ProgramMonitor.SummaryOfKey | monitor_metricas_programa.py:128-135 | a summary names the registered faculty and program when the faculty has no `\|` |
| ProgramMonitor.GroupedGet | monitor_metricas_programa.py:175-178 | each faculty's group lists exactly its summaries in report order, and exists only when it has some |
| ProgramMonitor.GroupedListsAll | monitor_metricas_programa.py:175-188 | the report lists every summary once |
| ProgramMonitor.ProgramMonitor.constructor | monitor_metricas_programa.py:24-43 | a monitor starts with no programs |
| ProgramMonitor.ProgramMonitor.Register | monitor_metricas_programa.py:66-70 | the program's record, zero when new, is bumped for the outcome; the rest stay |
| ProgramMonitor.ProgramMonitor.RegisterServed | monitor_metricas_programa.py:58-70 | the served counter of the program is bumped |
| ProgramMonitor.ProgramMonitor.RegisterRejectedByFaculty | monitor_metricas_programa.py:72-85 | the faculty-rejection counter of the program is bumped |
| ProgramMonitor.ProgramMonitor.RegisterRejectedByServer | monitor_metricas_programa.py:87-100 | the server-rejection counter of the program is bumped |
| ProgramMonitor.ProgramMonitor.RegisterCommError | monitor_metricas_programa.py:102-115 | the communication-error counter of the program is bumped |
| ProgramMonitor.ProgramMonitor.ReportOf | monitor_metricas_programa.py:162-201 | the fixed "no data" report is given exactly when no program was registered |
| ProgramMonitor.RegisterEffect | monitor_metricas_programa.py:58-115 | after a `registrar_*` call only the program's own record changed, by one on its own counter |

## Left out

- Sockets, pollers, threads, locks, daemon loops, reading console input, `print`, logging and `main` are not modelled. Received messages are parameters, and messages sent are returned values.
- Rooms.RoomServer.Allocate: the lock of `ServidorDTI` is not modelled. As written, `asignar_aulas` holds the non-reentrant lock and then `guardar_aulas` takes it again, which would block forever. The model lets the save go ahead.
- Clocks, `datetime` stamps and `uuid` are inputs: ticks as integers, stamps as opaque strings.
- JSON encoding and decoding are a `Codec` parameter. Integers are the only numbers.
- Rooms.RoomServer.Allocate: a `facultad` or `programa` that is not a text is read as missing, and the request gets the `KeyError` reply. Python allocates anyway and stores that value in the rooms. The model's rooms hold texts only.
- Standby.ReadRecords: a snapshot record's `capacidad` must be an integer and its `id`, `facultad`, `programa`, `fecha_solicitud` and `fecha_asignacion` must be texts, or the field counts as unreadable. Python assigns such a field whatever its type. Only a missing key, a record that is not an object, or a bad `tipo` or `estado` raises. The model's rooms hold typed fields only.
- Standby.RecordRoom: for the same reason, a record with a wrong-typed free field describes no room here, although Python would build one.
- Standby.UpdateFields: a wrong-typed free field stops the update at that field, where Python assigns it and goes on.
- Standby.NewRoom: a wrong-typed free field creates no room, where Python's `Aula(...)` accepts it.
- Standby.StandbyServer.Merge: because of the above, a snapshot with a wrong-typed free field stops the merge at that record and skips the save, where Python would apply the whole snapshot and save it.
- Standby.StandbyServer.ProcessSync: inherits the same gap through `Merge`.
- Standby.RecordRow: a list or object cell, which `csv.writer` writes as its `repr`, counts as a record that raises, so no later row is written. Python's `repr` of nested values is not modelled.
- PyText.Lower: only ASCII and Latin-1 capitals are lowered. Python's `lower` covers all of Unicode, which matters only for the "comunicación" test on error texts outside Latin-1.
- The CSV library is abstracted as rows of cells. The room file loaded by `ServidorDTI()` is given as rows of rooms. Writes of the room file succeed or fail as a parameter (`Rooms.Store`).
- Standby.StandbyServer.WriteFromServer: the backup write always succeeds here. Python catches a failed open or write and logs it; the old file then stays when the open failed, and a truncated one when the write failed part way.
- Standby.StandbyServer.WriteFromSnapshot: the same; a failed write of the held state is not modelled.
- Standby.LoadBackup: `isdigit` and `int` are taken over ASCII digits, so a capacity cell of other Unicode digits reads as 0 with every record kept. In Python a cell such as "²" passes `isdigit` and makes `int` raise, which resets the state to no records, and a cell such as "٣" reads as 3.
- Programs.AskedFirstAnswer: `int(input())` is read as surrounding whitespace, an optional sign and ASCII digits only. A line that Python's `int` also accepts, such as "٣" or "1_0", is refused here and asked again.
- Programs.AskNumber: the same reading of `int`; it inherits that gap through `Asked`.
- ProgramMonitor.ProgramMonitor.Register: faculty and program names are strings; the key Python builds with `f"{facultad}|{programa}"` from values of other types (their `str()` rendering) is not modelled. The same holds for `RegisterServed`, `RegisterRejectedByFaculty`, `RegisterRejectedByServer` and `RegisterCommError`.
- Floating-point results are out: averages, percentages and their formatting, the report writers, and `medir_tiempo_respuesta_completo`, which only prints.
- Collector.MetricsCollector.RegisterProgram: the key of a faculty or program that is not a string (its `str()` rendering) is not modelled; both are strings here.
- Faculty.Answer: the timeout reply is not checked against the decorators' classification. Only the ZMQ-failure reply is (`Decorators.ZmqFailureClassified`).
- `generador_reportes.py`, `estructuras.py` and `config.py` are not part of this model. Neither is the primary's heartbeat and snapshot publishing, which no modelled file performs.

## Findings

| source | as written | input that shows it | evidently intended | confidence | as-written member | corrected member |
|---|---|---|---|---|---|---|
| DTI_servidor_backup.py:384-386 | a turn of the worker loop releases its permit whenever no further message is waiting, even when the request admitted in that turn still holds it; the request's `finally` (line 425) releases it again | one request of four frames received while no other message is waiting: once it finishes the semaphore holds 11 permits, so more than ten requests can later run at once | the permit is released in the loop only when no request was admitted, so permits plus running requests stay 10; this corrected turn is the one `Standby.StandbyServer.PollOnce` implements | not executed | Standby.AsWrittenReleasesTwice | Standby.TurnBalanced |
