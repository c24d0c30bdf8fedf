# A key-value server, verified

The server keeps a hash table of 26 chained buckets in memory. Job threads read
command files and run WRITE, READ, DELETE and SHOW batches on the table, each under
a global read-write lock and the read-write locks of the buckets it needs; BACKUP
forks a process that prints its copy, and WAIT pauses. Clients connect over named
pipes, get a worker through a ring buffer, and subscribe to keys; every write or
deletion of a key is sent to its subscribers. SIGUSR1 throws all clients out.

This project models the second version of the server (`proj_p2`) and proves what
its parts are for. Characters stand for bytes. The table size is the source's 26;
the number of threads, of sessions, of workers, the backup limit, the sizes of
jobs and the lengths of runs are parameters.

## How it is laid out

- `Text`, `Numbers`: C strings, `strcmp`, the hash function, decimal numbers.
- `Tables`: the hash table as a value. `HashTables`: the same in memory, chains of
  linked nodes, each with a linked list of subscribers, changed in place and proved
  against it.
- `Batches`, `Sorting`, `LockOrder`: a command as a plan, the buckets it locks in
  order and the single-key actions it performs. `Operations`: the `kvs_*` functions
  as loops over the table in memory, each proved to carry out its plan.
  `BatchMeaning`, `ShowOrder`: what a whole plan does to the table as a map, and when
  SHOW is sorted. `BackupFiles`: what a backup file holds when writes fail.
  `ReadBack`: that the map can be read back from what SHOW and BACKUP print.
- `Store`: the job threads as a state machine; a step takes one lock, performs one
  action, releases one lock, or is one step of BACKUP or of a backup process.
  `Locking`, `Serialisability`, `Runs`, `Progress`, `Deadlock`, `Counting`: the
  invariants of the machine and the theorems about its runs. `SerialMeaning`,
  `JobRuns`: the same from the text of job files to maps and output files.
  `OneLineJobs`: jobs of one line, from the bytes of the file to the bytes printed.
- `Subscriptions`: sessions and subscriptions as values. `Notifications`,
  `Traffic`: the theorems about them. `Clients`: the slots, the clients and their
  linked lists of keys in memory, proved against the values.
- `Delivery`, `WholeMessages`, `Recipients`, `Replays`: jobs and clients on one table,
  with the two writes of every notification as steps of their own; what clients read
  from their pipes, and what they can make of it. `AmongClients`: the theorems about
  jobs, with clients about.
- `Sessions`, `SessionRuns`, `SessionFaults`: host thread, workers, ring buffer,
  semaphores, mutex, signal handler and slots as a state machine, the theorems about
  its runs, and the runs that go wrong.
  `ClientsBuffers`: the ring buffer in memory.
- `Parsing`, `JobText`, `RejectedLines`, `Jobs`: the job parser as functions, its
  exactness and round trip, what it passes over, and the parser as it runs, byte by
  byte.
- `Pipes`, `Framing`, `Printers`: `read_all` and `write_all` against calls that move
  any number of bytes, the client messages, and the printing code.

Two machines and one set of calls cover what runs at once: `Store` for the jobs,
`Sessions` for the way to a worker, `Subscriptions` for what clients ask. Jobs and
calls meet in `Delivery`.

Results that are not plain confirmations:

- Sorting a batch makes it lock its buckets in ascending order if and only if the
  batch has no *inversion*: a key with a greater initial and a smaller bucket than
  another key, whose bucket no earlier key locks. Initials of one class, which
  kvs.c asks for, exclude it. Any batch with an inversion deadlocks with some
  harmless WRITE of lowercase keys.
- With a backup limit of zero no job gets past its first BACKUP.
- One SIGUSR1 at a time overwrites no connect request, unless its handler runs while
  the host waits for a free place: the wait then ends without a token. Two before a
  restart leave a token too many. Either way, for every buffer size there is a run in
  which a request is overwritten. After that more requests are pending than places
  are full, so that a worker goes on to read, and free, a place that was freed.
- The host takes back the flag that ends sessions when it reads the next connect
  request. A worker that has not looked at the flag by then goes on with a client that
  was thrown out, and does not find its slot at the end; one signal suffices.
- A worker that sees the flag breaks its session off and leaves the slot taken until the
  host cleans up. Until then the next clients can be refused although nobody is in a
  session; one signal suffices.
- A notification is two writes, key and text, under the lock of the key's bucket only.
  A client reads whole messages in every run if and only if all keys it is listed
  under are in one bucket; one job thread alone never mixes them. For any two keys of
  different buckets there is a run of two jobs in which the client takes one key for
  the value of the other.
- With whole messages, a client that replays its pipe has, at every moment, the value
  after all calls but the last one on the key, while that one is being written to it,
  and after all calls otherwise; if and only if no message on the pipe comes from a
  write of the word `DELETE` to the key before it is deleted. The lag is real, even
  with one job thread.
- A WRITE with a pair that is not one takes the next line of the job with it; a READ or
  DELETE with a key that is not one does not.
- A backup line is cut at 39 bytes. The file tells the map if all lines fit; two values
  that differ only behind the cut are backed up alike.
- SHOW need not be sorted by key, as the repository's own documentation says it is:
  after `WRITE [(a,)(ab,)]` it prints `ab` first. It is sorted if and only if every
  chain is and no key of a bucket is greater than one of a later bucket; after one
  WRITE of lowercase keys on an empty table, if and only if keys with the same initial
  are the same. It prints one `(key, value)` a line, without the brackets of the
  documentation; the model follows the code.

## Model

| member | source | states |
|---|---|---|
| Tables.PutMeaning | proj_p2/src/server/kvs.c:46-82 | a write is map update; the key keeps its subscribers or starts with none, all other keys keep value and subscribers; the chains stay valid |
| Tables.DropMeaning | proj_p2/src/server/kvs.c:100-128 | a deletion is map removal and leaves every other key and its subscribers alone |
| HashTables.Slot.FindNode | proj_p2/src/server/kvs.c:50-60 | walking the linked chain finds the first node with the key, and the node before it, or the end |
| HashTables.Slot.Relink | proj_p2/src/server/kvs.c:112-121 | unlinking a node in place leaves the linked list without just that node |
| HashTables.HashTable.WritePair | proj_p2/src/server/kvs.c:46-82 | in memory, the table becomes the old one with the pair put in, and each subscriber gets the new value once, in list order |
| HashTables.HashTable.ReadPair | proj_p2/src/server/kvs.c:84-98 | returns the stored value, or none, and changes nothing |
| HashTables.HashTable.DeletePair | proj_p2/src/server/kvs.c:100-128 | the table becomes the old one without the key, 0 is returned if and only if it was there, each subscriber is told once |
| HashTables.HashTable.Subscribe | proj_p2/src/server/operations.c:309-322 | the descriptor is added to the key's list unless it is on it, nothing else changes; status and found say which |
| HashTables.HashTable.Unsubscribe | proj_p2/src/server/operations.c:353-379 | the descriptor is taken off the key's list, nothing else changes; 0 if and only if it was on it |
| HashTables.HashTable.constructor | proj_p2/src/server/kvs.c:27-44 | a new table is 26 empty chains |
| HashTables.HashTable.Disjoint | proj_p2/src/server/kvs.h:13-23 | the chains of two buckets share no node, since every key is in its own bucket |
| HashTables.KeyNode.AddSubscriber | proj_p2/src/server/kvs.c:130-164 | on the node's linked list: the descriptor goes last unless it is there; 1 if and only if it was; the list stays acyclic and without duplicates |
| HashTables.KeyNode.RemoveSubscriber | proj_p2/src/server/kvs.c:166-184 | on the node's linked list: the descriptor goes, the others keep their order; 0 if and only if it was there |
| HashTables.KeyNode.NotifySubscribers | proj_p2/src/server/kvs.c:186-197 | walking the linked list: one message to every subscriber, in list order; `Delivery` takes each apart into its two writes |
| LockOrder.AscendingIffNoInversion | proj_p2/src/server/operations.c:69-101 | a sorted batch takes its buckets in strictly ascending order if and only if it has no inversion |
| LockOrder.CommandLocksAscend | proj_p2/src/server/operations.c:123-139 | this is decided by the batch itself, whatever order qsort leaves equal keys in; SHOW always ascends |
| Batches.Locality | proj_p2/src/server/operations.c:141-188 | a plan gives the same output, and the same chains in its buckets, on any two tables that agree on these buckets |
| Batches.ActsWithinLocks | proj_p2/src/server/operations.c:123-146 | every action of a command is within the buckets it locks, and only commands that lock exclusively change anything |
| Operations.Qsort | proj_p2/src/server/operations.c:55-67 | the array becomes a permutation of itself in which every key is a beginning of each later one, or has the smaller byte where they first differ |
| Text.AtMostIff | proj_p2/src/server/operations.c:55-67 | the order of strcmp: a is not after b if and only if a is a beginning of b, or has the smaller byte at the first place where they differ |
| Text.HashByInitial | proj_p2/src/server/kvs.c:17-25 | letters of either case go by their place in the alphabet, digits by theirs, everything else has no bucket |
| Operations.LockList | proj_p2/src/server/operations.c:69-101 | the buckets locked are those of the keys, each once, in order of first occurrence, and exactly these are marked |
| Operations.UnlockList | proj_p2/src/server/operations.c:103-114 | every marked bucket is released once, in bucket order, and no mark is left |
| Operations.KvsWrite | proj_p2/src/server/operations.c:116-152 | on the table in memory, WRITE sorts, locks, does and sends what the plan of the sorted batch says, and releases what it locked; the map is then overridden by the sorted batch |
| Operations.KvsRead | proj_p2/src/server/operations.c:154-192 | the same for READ; its output is `[`, a `(key,value)` or `(key,KVSERROR)` of at most 255 bytes for every key as sorted, and `]` with a newline |
| Operations.KvsDelete | proj_p2/src/server/operations.c:194-233 | the same for DELETE, with its deletion notices; the map loses the keys, and the output has a `(key,KVSMISSING)` in brackets for every key absent at its turn, or is empty |
| Operations.KvsShow | proj_p2/src/server/operations.c:235-264 | the same for SHOW; its output is one `(key, value)` line of at most 255 bytes for every pair of the map, once |
| Operations.KvsBackup | proj_p2/src/server/operations.c:266-290 | the file and the calls of write become those of printing the cut lines, bucket by bucket, whatever calls move less than asked or fail; without failures the file gets the first 39 bytes of the `(key, value)` line of every pair of the map, once |
| BackupFiles.BackupMeaning | proj_p2/src/server/io.c:11-26 | of every line of a backup some first bytes are in the file, in order, and of exactly as many lines as calls of write fail or are interrupted these are not all: each such call costs the rest of one line |
| ReadBack.BackupReadsBack | proj_p2/src/server/operations.c:266-290 | when the lines of all pairs fit into 39 bytes, and keys have no comma and values no closing bracket, the pairs read back from a backup file are exactly those of the map, each once |
| ReadBack.ShowReadsBack | proj_p2/src/server/operations.c:244-255 | the same for the output of SHOW, with 255 bytes a line |
| ReadBack.LongLinesAreLost | proj_p2/src/server/operations.c:270-282 | when key and value have 36 bytes or more, values that differ only in what comes after are backed up alike |
| BatchMeaning.WriteMeaning | proj_p2/src/server/operations.c:141-146 | WRITE is the map overridden by the batch, keeps all subscribers and prints nothing |
| BatchMeaning.DistinctWritesCommute | proj_p2/src/server/operations.c:123-129 | with distinct keys the result is the same for every order of the batch |
| BatchMeaning.AsMapSupplied | proj_p2/src/server/operations.c:141-146 | with repeated keys the stored value is one that was supplied for the key |
| BatchMeaning.ReadMeaning | proj_p2/src/server/operations.c:166-186 | READ prints, in sorted order and in brackets, the first 255 bytes of `(key,value)` or `(key,KVSERROR)` for every key, and leaves the table alone |
| BatchMeaning.DeleteMeaning | proj_p2/src/server/operations.c:207-227 | DELETE removes its keys and prints, in brackets, the first 255 bytes of `(key,KVSMISSING)` for exactly those absent at their turn, or nothing |
| BatchMeaning.MissingMeans | proj_p2/src/server/operations.c:208-222 | a key is printed as missing once for each of its turns but the one that removes it |
| BatchMeaning.ShowMeaning | proj_p2/src/server/operations.c:244-255 | SHOW prints the first 255 bytes of a `(key, value)` line for every pair of the table exactly once |
| ShowOrder.ShowSortedIff | proj_p2/src/server/operations.c:244-255 | SHOW is sorted by key if and only if every chain is and no key of a bucket is greater than one of a later bucket |
| ShowOrder.BatchShowsSortedIff | proj_p2/src/server/kvs.c:66-80 | after one WRITE of lowercase keys on an empty table SHOW is sorted if and only if keys of the batch with the same initial are the same, whatever order qsort leaves |
| ShowOrder.ShowIsNotSorted | README.md:114-121 | the documented order fails: after WRITE of a and ab on an empty table SHOW prints ab first |
| Locking.HoldersShare | proj_p2/src/server/operations.c:69-114 | under the lock invariant, two threads hold one bucket only if both hold it shared |
| Runs.HoldersAlwaysShare | proj_p2/src/server/operations.c:69-114 | in every reachable state, two threads that hold one bucket are both in a READ or SHOW |
| Progress.LocksOpen | proj_p2/src/server/operations.c:69-101 | in every reachable state: a thread gets the bucket it waits for exactly if nobody has it, or all who have it and itself are in a READ or SHOW; a command can begin exactly if no BACKUP has the global lock; a BACKUP gets that exactly if no command and no other BACKUP has it |
| Serialisability.StepAgrees | proj_p2/src/server/operations.c:69-264 | every step keeps table and outputs in agreement with the serial run of the commands that have their last lock |
| Runs.Serialisable | proj_p2/src/server/operations.c:116-264 | for every interleaving, when all jobs are done the table and every output are those of running the commands one at a time in the order of their last bucket lock; each thread's commands are in program order |
| Runs.SerialSoFar | proj_p2/src/server/main.c:133-176 | at any moment, a thread between commands has written what that serial run so far gives it |
| Runs.RealTime | proj_p2/src/server/operations.c:116-264 | a command that has ended before another begins comes before it in the serial order |
| Runs.BackupsAreConsistent | proj_p2/src/server/main.c:219-255 | every finished backup file is the print of the table after a prefix of the serial order, whatever the parent does meanwhile |
| Progress.BackupsAreBounded | proj_p2/src/server/main.c:193-228 | counter, threads about to fork and unreaped children add up to the limit in every reachable state, so at most that many backups run |
| Progress.RunsAreBounded | proj_p2/src/server/main.c:124-290 | every step lowers a measure: no run is longer than that of its first state |
| Progress.RunsComplete | proj_p2/src/server/main.c:133-176 | without inversions, and with a limit above zero or no BACKUP, as long as writes to pipes go through: a run can go on until all jobs and backups are done, it cannot go on forever, and at the end no lock is held |
| Progress.RunsCanFinish | proj_p2/src/server/main.c:133-176 | under the same conditions every run can be continued to one at whose end all threads are idle with nothing to do, no backup process runs and no lock is held |
| SerialMeaning.SerialMeans | proj_p2/src/server/main.c:123-290 | commands run one at a time leave the map after all of them, and each file holds what its commands print, in turn, about the map as they find it |
| JobRuns.FilesAreSerialisable | proj_p2/src/server/main.c:123-290 | for every interleaving, when the threads are done each has carried out exactly the commands the parser finds in its file, in file order, each with its own kind and the same list, sorted by key; and table and outputs are those of one serial order of all of them |
| JobRuns.FilesMean | proj_p2/src/server/main.c:123-290 | so the table is then the map after these commands, and each output file holds, line by line, what its WRITE, READ, DELETE, SHOW, WAIT and BACKUP lines should print about it |
| JobRuns.BackupsMean | proj_p2/src/server/main.c:219-255 | every finished backup file has the first 39 bytes of the `(key, value)` line of each pair once, of the map that the commands before its BACKUP line leave |
| JobRuns.PrintedJobsRun | proj_p2/src/server/parser.c:95-312 | jobs printed to files, within the limits of the parser, are run by one thread each, command for command with the same keys, values and delays |
| OneLineJobs.WriteJob | proj_p2/src/server/main.c:126-138 | a job of the line `WRITE [(k,v)...]`, up to 255 pairs of at most 39 bytes, leaves the map with just these keys added, each with a value given for it, all others as they were, and prints nothing |
| OneLineJobs.ReadJob | proj_p2/src/server/main.c:140-154 | a job of the line `READ [k,...]` leaves the map alone and prints `(k,v)` or `(k,KVSERROR)`, uncut, for every key in sorted order |
| OneLineJobs.DeleteJob | proj_p2/src/server/main.c:156-169 | a job of the line `DELETE [k,...]` leaves the map without these keys and prints `(k,KVSMISSING)`, uncut, for those absent at their turn, in sorted order |
| OneLineJobs.ShowJob | proj_p2/src/server/main.c:171-177 | a job of the line `SHOW` leaves the map alone and prints every pair once, uncut |
| OneLineJobs.WaitJob | proj_p2/src/server/main.c:179-189 | a job of the line `WAIT d` leaves the map alone and prints `Waiting...` unless d is 0 |
| OneLineJobs.BackupJob | proj_p2/src/server/main.c:191-261 | a job of the line `BACKUP` leaves the map alone and prints nothing; its backup process writes every pair once, the first 39 bytes of each line |
| AmongClients.RunBare | proj_p2/src/server/operations.c:297-576 | erasing the lists of subscribers, the writes to pipes and all requests of clients from a run gives a run of the jobs alone |
| AmongClients.JobsAreSerial | proj_p2/src/server/operations.c:116-264 | so, whatever clients ask meanwhile, pairs and output files are those of running the commands one at a time in the order of their last bucket lock |
| AmongClients.BackupsAreSerial | proj_p2/src/server/main.c:219-255 | and every finished backup file is the print of the table after a prefix of that order |
| AmongClients.FilesMean | proj_p2/src/server/main.c:123-290 | and table and output files are what the commands in the job files say of the map, in one order of them all |
| AmongClients.JobsGoOn | proj_p2/src/server/main.c:133-176 | without inversions, and with a limit above zero or no BACKUP, while jobs or backups are not done one of them can go on or a notification be written, whatever clients did; and the steps of jobs and backups are bounded |
| Deadlock.OneClassIsOrdered | proj_p2/src/server/kvs.c:12-25 | jobs whose batches have initials of one class each are free of inversions |
| Deadlock.InversionCanDeadlock | proj_p2/src/server/operations.c:69-101 | a batch with an inversion, in every order qsort may give it, has a partner, a WRITE of lowercase keys, and a run of the two that ends in deadlock |
| Deadlock.NoLimitNoEnd | proj_p2/src/server/main.c:199-209 | with a limit of zero no run takes a job past a BACKUP: it and all commands after it stay undone |
| Subscriptions.StepOk | proj_p2/src/server/operations.c:297-576 | every call keeps the cross index between the lists of keys and of clients |
| Subscriptions.RepliesTell | proj_p2/src/server/operations.c:297-422 | for every name of 1 to 40 bytes: the reply to a subscription is '1' exactly if the key is in the table, and exactly then the client is on its list afterwards; that to an unsubscription is '0' exactly if the client was on it, and it is not afterwards; the own list of the client follows |
| Subscriptions.BadNamesAreIgnored | proj_p2/src/server/operations.c:297-303 | an empty name, or one of more than 40 bytes, changes nothing; the replies are '0' and the byte 1 |
| Subscriptions.ForgetKeepsOrder | proj_p2/src/server/operations.c:381-401 | dropping a key from a client's list drops every copy of it and keeps all others in order |
| Subscriptions.OwnSlot | proj_p2/src/server/operations.c:439-456 | the first slot with a client's descriptors is its own |
| Notifications.CrossIndex | proj_p2/src/server/operations.c:297-422 | after any calls, each descriptor on a key's list is there once and belongs to exactly one connected client, whose own list has the key |
| Notifications.DisconnectPurges | proj_p2/src/server/operations.c:506-541 | after a disconnect the client's slot is free, its descriptor on no list, and all pairs as before |
| Notifications.CleanAllPurges | proj_p2/src/server/operations.c:544-576 | after clean_all_clients all slots are free, all lists empty, and all pairs as before |
| Notifications.NewSessionStartsClean | proj_p2/src/server/operations.c:458-504 | a descriptor that open returns is on no list, whoever had its number before |
| Notifications.NewSessionHearsNothing | proj_p2/src/server/operations.c:458-541 | in any run after a connect, a client that never subscribes to a key is sent nothing about it, whoever had its descriptors before |
| Notifications.SessionStream | proj_p2/src/server/kvs.c:186-197 | while a session goes on, the messages sent to its client about a key are determined by the calls on that key and its own, each once and in order |
| Notifications.Mirror | proj_p2/src/server/kvs.c:46-128 | a client on the list of a key is sent one message for each value written until the key is deleted, then the word DELETE for the deletion, then none even if the key returns; until then the last value sent is the value stored |
| Notifications.ReplayMeans | proj_p2/src/client/main.c:47-66 | a client that replays texts has the last of them, or what it had before, unless one is the word DELETE |
| Notifications.FirstSession | proj_p2/src/server/operations.c:297-351 | call by call: the first client, subscribed to the only key, is sent the next value and DELETE, nothing when the key returns, and keeps the key on its own list |
| Notifications.MessagesReplay | proj_p2/src/server/kvs.c:109-111 | of the messages as sent: replaying them gives the value at every moment if and only if nobody writes the word DELETE to the key before it is deleted |
| Delivery.RunIsCalls | proj_p2/src/server/kvs.c:46-128 | table, slots and messages of any run of jobs, writes to pipes and requests of clients are those of its calls in the session model |
| WholeMessages.MessagesStayWhole | proj_p2/src/server/kvs.c:186-197 | in any run with one job thread, or in which the client is listed under keys of one bucket only, the 41-byte blocks on its pipe are, taken two by two, the messages sent to it, in order, and all of them once nothing is owed |
| WholeMessages.TwoTextsAreMessage | proj_p2/src/server/kvs.c:186-197 | then the blocks on the pipe at places 2i and 2i + 1 are the key and the text of one message to the client |
| Recipients.PipesEndClean | proj_p2/src/server/operations.c:506-576 | in any run: when a client leaves or is thrown out, and when one connects, no job thread has anything left to write to its notification descriptor |
| Recipients.OwingStopsOthers | proj_p2/src/server/kvs.c:186-197 | while a job thread has notifications to write: it does nothing else, and every command and subscription that wants the bucket of the key, and every BACKUP, waits |
| Recipients.ClientsGetThrough | proj_p2/src/server/operations.c:297-379 | a subscription, and the end of one, goes through exactly when no job thread has the bucket of the key |
| Replays.PipeIsCurrent | proj_p2/src/client/main.c:47-66 | with whole messages and no word DELETE written, replaying what is on the pipe gives the value after all calls, or, while a message about the key is being written, the value before the last call on it; so it is right whenever the key's bucket lock is free |
| Replays.PipeReplayIsExact | proj_p2/src/client/main.c:47-66 | at every moment the replay of the pipe gives the value after the calls whose messages are on it if and only if, of those on it at the end, none writes the word DELETE before the key is deleted |
| Replays.PipeCanLag | proj_p2/src/server/kvs.c:46-82 | with one job thread and one write there is a moment at which the table has the new value and the replay of the pipe gives the old one |
| Replays.ReplayWithOwedIsExact | proj_p2/src/server/kvs.c:186-197 | with the texts still owed to the client counted as read, the replay gives the value after all calls at every moment if and only if nobody writes the word DELETE before the key is deleted |
| Replays.SubscriberFollows | proj_p2/src/server/operations.c:297-351 | a client that subscribes to a key, for the first time in its session, can replay it from its pipe as read since it connected, whoever had its descriptors before |
| WholeMessages.MessagesCanMix | proj_p2/src/server/kvs.c:186-197 | for two keys of different buckets with a common subscriber, two jobs that write one each have a run after which the client has read the second key as the value of the first |
| WholeMessages.MixedReplayIsWrong | proj_p2/src/client/main.c:47-66 | in that run the replay is wrong although nobody wrote the word DELETE |
| WholeMessages.WholeIffOneBucket | proj_p2/src/server/kvs.c:186-197 | a client reads whole messages in all runs of all sets of jobs if and only if the keys it is listed under are in one bucket |
| WholeMessages.PrintedAsPairs | proj_p2/src/client/main.c:47-66 | texts of at most 40 bytes without NUL, written as padded blocks of 41 bytes, are printed by the client as these texts, two by two |
| Traffic.CommandIsCalls | proj_p2/src/server/operations.c:141-146 | a batch does to table and subscribers what its single writes and deletions do as calls of the session model |
| Clients.Connection.RemoveSubscription | proj_p2/src/server/operations.c:381-401 | one walk unlinks every copy of the key from the client's linked list, which stays acyclic and keeps the order of the others |
| Clients.ClientTable.KvsConnect | proj_p2/src/server/operations.c:458-504 | in memory, a connect is that of the session model, in the first free slot, or refused with '1' |
| Clients.ClientTable.KvsSubscribe | proj_p2/src/server/operations.c:297-351 | in memory, table and slots become those of the session model; for names of 1 to 40 bytes the reply is '1' exactly if the key is there, and exactly then the client is on its list; other names get '0' and change nothing |
| Clients.ClientTable.KvsUnsubscribe | proj_p2/src/server/operations.c:404-422 | in memory, table and slots become those of the session model; for names of 1 to 40 bytes the reply is '0' exactly if the client was on the list, and it is not afterwards; other names get the byte 1 and change nothing |
| Clients.ClientTable.AddClient | proj_p2/src/server/operations.c:425-437 | the client goes into the first free slot; 1 if and only if there is none |
| Clients.ClientTable.RemoveClient | proj_p2/src/server/operations.c:439-456 | the first slot with the three descriptors is freed; 1 if and only if there is none |
| Clients.ClientTable.KvsDisconnect | proj_p2/src/server/operations.c:506-541 | in memory, a disconnect is that of the session model |
| Clients.ClientTable.CleanAllClients | proj_p2/src/server/operations.c:544-576 | in memory, the clean-up is that of the session model |
| ClientsBuffers.ClientsBuffer.Insert | proj_p2/src/server/main.c:544-547 | the array and its index become those of a put into the ring |
| ClientsBuffers.ClientsBuffer.Remove | proj_p2/src/server/main.c:402-415 | returns the next record; the array and its index become those of a take |
| SessionRuns.TokensConserved | proj_p2/src/server/main.c:518-549 | in every run, with signals, waits cut short by them, and through every way the host comes back to its wait: free tokens, pending records, the host's token and those owed are places, plus signals not yet answered, plus restarts after a wait cut short |
| SessionRuns.SignalFreeDelivers | proj_p2/src/server/main.c:518-549 | without signals, for any number of places and workers: no record is overwritten, none read from an empty or freed place, and the records taken are a beginning of those put in |
| SessionRuns.DeliveredInOrder | proj_p2/src/server/main.c:399-419 | the same delivery in any run at all, until a record is lost |
| SessionRuns.CalmLosesNothing | proj_p2/src/server/main.c:452-463 | with at most one signal outstanding at a time, and none handled in the host's wait, no record is ever overwritten |
| SessionRuns.WhenLost | proj_p2/src/server/main.c:545 | a store overwrites a record exactly if the signals outstanding, and restarts after a wait cut short, equal the tokens free or owed, plus the host's |
| SessionFaults.TwoSignalsCanLose | proj_p2/src/server/main.c:452-463 | for any number of places and workers, a run with two signals, neither handled in the host's wait, overwrites a record |
| SessionFaults.InterruptionCanLose | proj_p2/src/server/main.c:559-562 | for any number of places and workers, a run with one signal, handled while the host waits for a place, overwrites a record |
| SessionFaults.LossLeadsToMisread | proj_p2/src/server/main.c:399-419 | in any run, once a record was overwritten more are pending than places are full, until a worker reads a place without one; and one has when as many were taken as put in |
| SessionFaults.TwoSignalsCanFreeTwice | proj_p2/src/server/main.c:405-413 | for any number of places and at least one worker, a run with two signals after which a worker has read, and is about to free, a place that was freed before |
| SessionFaults.FreedClientGoesOn | proj_p2/src/server/main.c:530 | for any number of places and at least one worker, a run with one signal in which a worker goes on with a client that was thrown out, and does not find its slot when it leaves |
| SessionFaults.BrokenOffFillsSlots | proj_p2/src/server/main.c:435-437 | for any number of places and slots and at least one worker, a run with one signal after which a client is refused for want of a slot although no worker is in a session |
| SessionRuns.SlotsMatchSessions | proj_p2/src/server/operations.c:425-456 | without signals and with no more workers than slots: slots taken are as many as workers in a session, nobody is refused, and whoever leaves frees its own slot |
| JobText.ParseWriteIff | proj_p2/src/server/parser.c:200-247 | on bytes without NUL, pairs are returned if and only if the bytes begin with `[(key,value)...]` of these pairs and a newline, with texts of less than 40 bytes and without spaces, commas and closing brackets, and fewer pairs than the buffers hold; and just these bytes are consumed |
| JobText.ParseReadDeleteIff | proj_p2/src/server/parser.c:249-284 | the same for `[key,...]`, the keys of READ and DELETE |
| JobText.ReadUintText | proj_p2/src/server/parser.c:57-86 | the decimal text of any number, followed by any other byte, is read back as that number, and accepted exactly if it has at most 32 bits |
| JobText.ParseWaitMeans | proj_p2/src/server/parser.c:286-312 | a number of at most 32 bits is the delay if the line ends there, or a space comes next, when the rest of the line is dropped; all else is rejected with its line |
| JobText.SkippedLines | proj_p2/src/server/parser.c:95-179 | comments, empty lines, HELP, and lines whose first byte begins no command, are read to their end and passed over |
| JobText.UnknownLines | proj_p2/src/server/parser.c:95-179 | so are lines of seven bytes or more that do not begin with a command |
| RejectedLines.BadKeySkipsTwo | proj_p2/src/server/parser.c:186-225 | after any good pairs of a WRITE, a key on the line that does not end with a comma: the line and the next one are passed over |
| RejectedLines.BadValueSkipsTwo | proj_p2/src/server/parser.c:186-225 | the same for a value that does not end with a closing bracket |
| RejectedLines.BadKeySkipsLine | proj_p2/src/server/parser.c:249-284 | after any good keys of a READ or DELETE, a key on the line that ends with neither comma nor bracket: just the line is passed over |
| RejectedLines.BadStartSkips | proj_p2/src/server/parser.c:204-207 | a list without its first bracket: the rest of the line, and if there is none the next line, is passed over |
| RejectedLines.BadWriteEnd | proj_p2/src/server/parser.c:241-244 | pairs that are followed by more on their line: the line is passed over |
| RejectedLines.BadReadEnd | proj_p2/src/server/parser.c:278-281 | the same for keys |
| JobText.JobRoundTrip | proj_p2/src/server/main.c:123-290 | any job within the limits, once printed, is read back as the same commands, whatever follows; at the end of the file nothing is left |
| JobText.FewCommands | proj_p2/src/server/parser.c:95-179 | a job of n bytes has at most n commands |
| Parsing.GetNext | proj_p2/src/server/parser.c:95-179 | the end of commands is reported only at the end of the file, and every other result has consumed a byte |
| Jobs.JobFile.ReadString | proj_p2/src/server/parser.c:16-50 | reading byte by byte returns the field, what ended it, and the position after it |
| Jobs.JobFile.ReadUint | proj_p2/src/server/parser.c:57-86 | the same for a number; 1 if it has more than 32 bits |
| Jobs.JobFile.GetNext | proj_p2/src/server/parser.c:95-179 | the reads of one, four, five or six bytes recognise the word of the next command as the function does |
| Jobs.JobFile.ParseWrite | proj_p2/src/server/parser.c:200-247 | the loop of parse_write returns what the function says and leaves the rest unread |
| Jobs.JobFile.ParseReadDelete | proj_p2/src/server/parser.c:249-284 | the same for parse_read_delete |
| Jobs.JobFile.ParseWait | proj_p2/src/server/parser.c:286-312 | the same for parse_wait as the job loop calls it |
| Jobs.JobFile.ReadJob | proj_p2/src/server/main.c:123-290 | the job loop ends, with all bytes read, and has carried out the commands of the file |
| Pipes.Source.ReadAll | proj_p2/src/common/io.c:12-37 | 1 exactly when the next size bytes were taken, in order; 0 only at the end of the data; -1 only after a failure or interruption |
| Pipes.Sink.WriteAll | proj_p2/src/common/io.c:55-70 | 1 exactly when all bytes were written, in order, through any interruptions; -1 only if a call failed, after a proper part |
| Framing.FillWithNulls | proj_p2/src/client/parser.c:200-205 | the part of the buffer becomes the padded text, and the rest of it is as before |
| Framing.WriteConnectMessage | proj_p2/src/client/api.c:35-47 | the bytes of the connect message are sent, however write splits them |
| Framing.Send | proj_p2/src/client/api.c:225-293 | the bytes of a request are sent, however write splits them |
| Framing.RequestBytes | proj_p2/src/client/api.c:225-293 | byte by byte: 3 or 4 and the key in 41 bytes, filled up with NUL; 2 alone |
| Framing.ConnectBytes | proj_p2/src/client/api.c:35-47 | byte by byte: 1 and three paths in 40 bytes each, filled up with NUL |
| Framing.RequestsRoundTrip | proj_p2/src/server/main.c:336-386 | any requests with keys of at most 40 bytes without NUL are taken apart by the server as they were sent |
| Framing.SessionRoundTrip | proj_p2/src/server/main.c:435-446 | a whole session is taken apart as sent and ends at the disconnect request, not a byte later |
| Framing.ConnectRoundTrip | proj_p2/src/server/main.c:306-330 | three paths of at most 39 bytes without NUL are read back from the connect message |
| Framing.ReadConnectMessage | proj_p2/src/server/main.c:306-330 | 0 only with the paths of a complete connect message; without interruptions, 1 only if there was none |
| Framing.ServeSession | proj_p2/src/server/main.c:430-446 | the worker's loop takes in just what was sent; interruptions and failures can only end it early |
| Printers.WriteUint | proj_p2/src/server/io.c:28-43 | a number up to the greatest int is written as its decimal text, a negative one as 0, if no call of write fails; each that fails adds a byte, until the index wraps; so the output is right only with no failures or 17 |
| Printers.WriteStr | proj_p2/src/server/io.c:11-26 | the string is written piece by piece, whole or, after the first call that fails, up to there |
| Printers.StrnMemcpy | proj_p2/src/server/io.c:45-50 | copies the lesser of the string and the limit to its place in the buffer |
| Printers.FormatBackupLine | proj_p2/src/server/operations.c:270-282 | the buffer gets the first 39 bytes of `(key, value)` with a newline, and a NUL; no length goes below zero, no index beyond the buffer |
| Numbers.NumberOfDecimal | proj_p2/src/server/io.c:32-38 | decimal text stands for its number |
| Numbers.DigitAt | proj_p2/src/server/io.c:32-38 | the byte at each place of decimal text is the digit of the number at that place |
| Numbers.NoLeadingZero | proj_p2/src/server/io.c:32-38 | and there are no more digits than the number needs |

## Left out

- The first version of the server, `proj_p1`.
- Failures of malloc (but for the host's record), of locks, `open`, `close` and `fork`, and the paths that then skip an unlock.
- Keys whose initial is neither a letter nor a digit: their hash is -1 and the source would use it as an index. `Key` excludes them, and `KvsSubscribe` and `KvsUnsubscribe` require it of names they do not reject.
- Reads and writes past the end of C buffers: 41-byte writes of shorter strings in `notify_subscribers`, `buffer[max]` in the parser's `read_string`, `opcode[1]` and the 41st path byte in `read_connect_message`, more than 16 digits in `read_uint`, and the missing terminator there at the end of the file.
- What is passed over after a rejected list when a key or value runs over the end of its line, or the list fills the buffers: `Parsing` follows the code in it, and `RejectedLines` says nothing of it.
- The internals of qsort: a sorted permutation, nothing about equal keys.
- Races between the clean-up after SIGUSR1 and a worker in the middle of a request, and the reuse of a descriptor between `close` and `remove_client`: a subscription, a disconnect and a clean-up are one step each in `Subscriptions` and `Sessions`.
- In `Delivery` a request of a client is one step, taken when the bucket locks it needs are free; a disconnect and the clean-up, which take them one after the other, wait until all are free at once.
- Progress.RunsComplete: a write to a notification pipe always goes through. In the source it blocks once the pipe of a client that does not read is full; `Recipients.OwingStopsOthers` says what then waits. `AmongClients.JobsGoOn` assumes the same.
- The time that WAIT takes, HELP, console messages, directory listing, file names, the lock around the directory (`Store` and `JobRuns` have one thread a job), and the client's main loop.
- The order in which a read-write lock serves its waiters: any waiter may be next.
- In `Store`, SHOW and a backup process print one bucket in one step; nothing can change it meanwhile.
- The order of frees, and freed nodes as such: the models keep a node that is out of the list.
- Operations.KvsRead: output is appended in one piece, as the source assumes of write on a regular file.
- SessionRuns.SlotsMatchSessions: signal-free runs only, because the clean-up empties slots whose workers are still in a session.
- A client's pipe after a failed write of a notification: writes are counted as done.
