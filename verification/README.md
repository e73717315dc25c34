# Verified models of the BrByte framework's lists, formats, protocols and ciphers

This project models the stateful cores of the BrByte framework in Dafny and proves what they promise:

- `StableSort.dfy`, `DLinkedList.dfy`: the intrusive doubly linked list. Nodes are heap objects; the merge
  sort relinks them in place, and every operation keeps `next`, `prev`, `head`, `tail` and `size` right.
- `MemBuffer.dfy`, `JsonText.dfy`, `JsonPrinter.dfy`, `JsonParser.dfy`, `JsonGrammar.dfy`, `JsonRoundTrip.dfy`:
  the JSON escaper, printers, in-place string decoder, containers and recursive-descent parser. The main
  results say which texts are parsed to which trees, and for which trees parsing the printed text gives the
  tree back: exactly for the printable ones.
- `DnsName.dfy`, `DnsMessage.dfy`, `DnsResolver.dfy`, `DnsResolverLog.dfy`: RFC 1035 names with compression,
  headers, questions and queries, the resolver's two lists with retransmission as a state machine over all
  runs, and which callbacks it makes.
- `ThreadPool.dfy`, `ThreadPoolFlags.dfy`, `ThreadPoolCancels.dfy`, `ThreadPoolCode.dfy`: the job protocol of the
  thread pool in every interleaving of atomic steps, a load or a store of a job's flags being one; which cancels
  spoil the flags, and which prevent a handler or a callback; and the methods, each one such step.
- `AioPq.dfy`, `AioPqRequests.dfy`, `AioPqPool.dfy`: the PostgreSQL dispatcher, every run of calls and events, with
  libpq as an oracle; what becomes of each request; what polling does to the connections.
- `HashBlocks.dfy`, `Md5.dfy`, `Sha1.dfy`, `Sha256.dfy`: buffering, counters and padding of the streaming
  hashes, against "pad the whole message, cut it into blocks, fold". The compression step is a parameter.
- `Blowfish.dfy`, `BlowfishWords.dfy`, `Rc4.dfy`, `Base64.dfy`: 64-bit words against 32-bit Blowfish, what
  those compute in numbers, decryption against encryption, the permutation of RC4 in every run, and base64
  against section 4 of RFC 4648.

`Options.dfy` and `SlotLists.dfy` hold what several of them share: options, and lists of slot numbers.

Objects that the code updates in place are classes with those fields, methods are written with the loops of
the code, and each is proved against a specification function about which the theorems are then proved. The
three protocols have a `State` and a `Step` function, the theorems speak of `Run` from the initial state,
and each method of the class beside them is proved to be one such step.

Several expected properties are not unconditional; the project states when exactly they hold:

- JSON: a `\u` escape is stored as UTF-8 except for the halves of surrogate pairs, which section 3 of RFC 3629
  excludes (`Utf8Read`). A tree survives printing and parsing if and only if it is a container and `Printable`.
- DNS: repacking an unpacked header needs zero reserved bits; a query is read back if and only if its labels
  with one octet each stay under 256 octets.
- Resolver: the timer is set while answers are awaited, except after a write event that sends when an
  earlier timer event had found nothing to wait for (`TimerCoverage`, with the run `TimerLost`).
- Resolver: the lists stay right up to a reply for a query that waits to be sent again, which the code
  deletes from the wrong list (`StepKeepsIff`, with the run `StrayRun`).
- Dispatcher: the dispatch timer is set while requests wait, except after an immediate send that PQsendQuery
  refuses (`WatchedKeeps`, with the run `Unwatched`), until the next accepted request (`Rewatched`).
- Dispatcher: which calls and events fail an assertion (`StepAborts`), runs in which none does
  (`GentleRunsAreSound`), and runs in which one does because a connection was lost while it held a request
  (`LostRequest`, `StaleRun`).
- Thread pool: the flags of a job share a word that a cancel loads and stores without a mutex. Lists, owners,
  order and at-most-once hold whatever cancels do; the assertions on `in_use` and `finished` hold as long as
  cancels are not torn by other stores (`WholeRunsAreSound`), and `TornIff` says which cancel breaks one, with
  the run `TornRun`.
- MD5 and SHA-1: the two-word counter stays right if and only if less than 2^32 bytes (2^29, unless the low
  word wraps anyway) are added at once.
- Base64: `brb_base64_encode_bin` encodes at most 98301 bytes, `brb_base64_decode_bin` stops at the room of
  its buffer.

Where comments in the code and the code disagree the model follows the code: the in-place decoder says that
0x00-0x19 are refused but refuses everything below 0x20.

## Model

| member | source | states |
|---|---|---|
| StableSort.SortKeepsItems | libbrb_core/data/core/dlinked_list.c:974-1047 | the sorted sequence is a permutation, whatever the comparator |
| StableSort.SortOrdered | libbrb_core/data/core/dlinked_list.c:974-1047 | for a strict weak order the result is ordered, ascending or descending |
| StableSort.MergeTies | libbrb_core/data/core/dlinked_list.c:1007-1043 | the merge keeps ties left then right when ascending, right then left when descending |
| StableSort.SortTies | libbrb_core/data/core/dlinked_list.c:974-1047 | ASCEND is stable, DESCEND reverses every group of ties |
| StableSort.DescendIsReversedAscend | libbrb_core/data/core/dlinked_list.c:1022-1031 | DESCEND gives exactly the reverse of ASCEND on the same list |
| DLinkedLists.SplitInHalf | libbrb_core/data/core/dlinked_list.c:982-1000 | the slow and fast pointers cut the chain behind its first half |
| DLinkedLists.TakeNext | libbrb_core/data/core/dlinked_list.c:1009-1031 | the next merged node is the one the merge of the two item sequences begins with |
| DLinkedLists.Hang | libbrb_core/data/core/dlinked_list.c:1033-1040 | appends the node to the merged ones with both links right, without touching the waiting chains |
| DLinkedLists.MergeHalves | libbrb_core/data/core/dlinked_list.c:1006-1045 | relinks both chains into the merge of their items, with `prev` repaired and null at the ends |
| DLinkedLists.MergeSortFunc | libbrb_core/data/core/dlinked_list.c:974-1047 | sorts in place: the same nodes with the same data, in the sorted order, linked both ways |
| DLinkedLists.LastNode | libbrb_core/data/core/dlinked_list.c:956-961 | the walk ends at the last node, the new tail |
| DLinkedLists.DLinkedList.Init | libbrb_core/data/core/dlinked_list.c:44-54 | a new list is valid and empty |
| DLinkedLists.DLinkedList.Add | libbrb_core/data/core/dlinked_list.c:108-138 | puts the node with its data in front; links, ends and size stay right |
| DLinkedLists.DLinkedList.AddTail | libbrb_core/data/core/dlinked_list.c:173-198 | puts the node with its data behind; links, ends and size stay right |
| DLinkedLists.DLinkedList.Delete | libbrb_core/data/core/dlinked_list.c:525-564 | removes exactly this node and makes it an orphan; an orphan changes nothing |
| DLinkedLists.DLinkedList.PopHead | libbrb_core/data/core/dlinked_list.c:612-652 | removes the first node and returns its data, or NULL |
| DLinkedLists.DLinkedList.PopTail | libbrb_core/data/core/dlinked_list.c:566-610 | removes the last node and returns its data, or NULL |
| DLinkedLists.DLinkedList.MoveToTail | libbrb_core/data/core/dlinked_list.c:363-415 | moves a member to the tail, the others keep their order |
| DLinkedLists.DLinkedList.MoveToHead | libbrb_core/data/core/dlinked_list.c:417-469 | moves a member to the head, the others keep their order |
| DLinkedLists.DLinkedList.SortMerge | libbrb_core/data/core/dlinked_list.c:931-969 | the list holds the same nodes with the same data in the order of the merge sort, and is valid |
| DLinkedLists.DLinkedList.DupUnsafe | libbrb_core/data/core/dlinked_list.c:1071-1086 | puts fresh copies in front of the other list in reversed order |
| DLinkedLists.DLinkedList.SortCopy | libbrb_core/data/core/dlinked_list.c:784-812 | the copy is the sort of the reversed data, the source list is unchanged |
| DLinkedLists.SortCopyTies | libbrb_core/data/core/dlinked_list.c:784-812 | a DESCEND copy is the stable descending sort, an ASCEND copy is ordered with every group of ties reversed |
| JsonText.DecodeEscape | libbrb_json/api/api_parser.c:161-228 | decoding an escaped string gives it back exactly when it holds no control byte but \b \f \n \r \t, and fails otherwise |
| JsonText.ReadUnicode | libbrb_json/api/api_parser.c:191-195 | four hexadecimal digits, and their value |
| JsonText.StoreLeadBytes | libbrb_json/api/api_parser.c:196-210 | stores all but the last byte of the code point's UTF-8 form |
| JsonText.ReadSimple | libbrb_json/api/api_parser.c:168-188 | accepts exactly the one-letter escapes and gives their characters |
| JsonText.DecodeTurn | libbrb_json/api/api_parser.c:161-228 | one turn reads a token and writes what it stands for, never past what was read |
| JsonText.DecodeInPlace | libbrb_json/api/api_parser.c:159-230 | the front of the buffer becomes the decoded text, NUL-terminated within the buffer, or the decoding fails |
| JsonText.Utf8Read | libbrb_json/api/api_parser.c:196-210 | a UTF-8 reader of its own (section 3 of RFC 3629) reads the value of an escape back from its bytes, and excludes them exactly for the halves of surrogate pairs |
| JsonText.UnicodeDecoded | libbrb_json/api/api_parser.c:189-213 | an escape with four hexadecimal digits of v, small or capital, is decoded to bytes that read as v |
| JsonText.EscapeApart | libbrb_json/libbrb_json.c:139-252 | different strings have different escapes, also those that the parser refuses |
| JsonPrinter.AddSlashed | libbrb_json/libbrb_json.c:139-252 | appends the escape of the longest prefix that fits the limit; without a limit of the whole string |
| JsonPrinter.PrintValue | libbrb_json/api/api_value.c:103-145 | appends the key, unless it is empty, and the printed value |
| JsonPrinter.PrintObject | libbrb_json/api/api_object.c:120-143 | appends the entries in order, commas between them |
| JsonPrinter.PrintArray | libbrb_json/api/api_array.c:78-106 | appends the items in order, commas between them |
| JsonParser.CapacityLimits | libbrb_json/json/json_object.c:62-72 | doubling from 20 stays within 1280 (163840 for arrays) exactly as long as the count does |
| JsonParser.JsonObject.GetValue | libbrb_json/json/json_object.c:102-125 | finds the first entry with the name if and only if there is one |
| JsonParser.JsonObject.Add | libbrb_json/json/json_object.c:57-87 | appends exactly when there are fewer than 1280 entries and none has the name; else changes no entry |
| JsonParser.JsonObject.Resize | libbrb_json/json/json_object.c:89-100 | sets the capacity and nothing else |
| JsonParser.JsonArray.Add | libbrb_json/json/json_array.c:56-73 | appends exactly when there are fewer than 163840 items |
| JsonParser.JsonArray.Resize | libbrb_json/json/json_array.c:75-83 | sets the capacity and nothing else |
| JsonParser.DecodeCopy | libbrb_json/api/api_parser.c:155-235 | the copied text between the quotes, decoded and read as a C string |
| JsonParser.Parser.SkipQuotes | libbrb_json/api/api_parser.c:693-714 | the cursor ends behind the closing quote, or at the end of the text |
| JsonParser.Parser.GetProcessedString | libbrb_json/api/api_parser.c:144-236 | cursor and string as the grammar function says |
| JsonParser.Parser.ParseValue | libbrb_json/api/api_parser.c:238-273 | cursor and value as the grammar function says, with the nesting limit |
| JsonParser.Parser.ParseObjectValue | libbrb_json/api/api_parser.c:275-346 | cursor and object as the grammar function says |
| JsonParser.Parser.ParseArrayValue | libbrb_json/api/api_parser.c:348-402 | cursor and array as the grammar function says |
| JsonParser.Parser.ParseStringValue | libbrb_json/api/api_parser.c:404-412 | cursor and string value as the grammar function says |
| JsonParser.Parser.ParseNumberValue | libbrb_json/api/api_parser.c:433-451 | cursor and number by strtod, refused when it is no plain decimal |
| JsonParser.Parse | libbrb_json/api/api_parser.c:101-112 | the whole parser computes the grammar function, for every text |
| JsonGrammar.SixBlanks | libbrb_json/libbrb_json.h:51 | the blanks are the six characters of isspace |
| JsonGrammar.StringIff | libbrb_json/api/api_parser.c:693-714 | a string is read exactly from units up to the first quote that belongs to none, if they decode and more text follows |
| JsonGrammar.ValueIff | libbrb_json/api/api_parser.c:238-402 | a value is found, with its end, exactly when the text there is one by a relation that follows the tree: tokens, blanks, commas, brackets, own names, limits |
| JsonGrammar.ParseIff | libbrb_json/api/api_parser.c:101-112 | a tree is parsed exactly when the text begins, behind blanks, with this container |
| JsonGrammar.DecimalRead | libbrb_json/api/api_value.c:125-129 | an integer is printed as its decimal digits, read back by place value, without zeros in front |
| JsonRoundTrip.StringBack | libbrb_json/api/api_parser.c:144-236 | where the printer put a string the parser reads it back exactly when it is safe |
| JsonRoundTrip.SafeNameBack | libbrb_json/api/api_value.c:109-112 | a nonempty name without quote, backslash and control bytes is read back |
| JsonRoundTrip.UnsafeNameLost | libbrb_json/api/api_value.c:109-112 | any other nonempty name, printed unescaped, is never read back as it was |
| JsonRoundTrip.RoundTrip | libbrb_json/api/api_parser.c:101-112 | parsing the printed text gives the tree back if and only if the root is a container and the tree printable: safe strings, safe distinct names, nesting and container limits |
| DnsNames.NameReadIff | libbrb_core/comm/core/comm_dns_resolver.c:1094-1172 | unpacking succeeds exactly when labels and at most 65 pointers lead to a root label or fill the room |
| DnsNames.NameIsReadable | libbrb_core/comm/core/comm_dns_resolver.c:1094-1172 | the labels unpacked are those reached by following pointers (section 4.1.4 of RFC 1035); without pointers the offset ends behind the root label |
| DnsNames.ReadableIsName | libbrb_core/comm/core/comm_dns_resolver.c:1094-1172 | whatever is reachable and fits is what is unpacked |
| DnsNames.EndsBehindPointer | libbrb_core/comm/core/comm_dns_resolver.c:1118-1132 | with pointers the offset ends just behind the first of them |
| DnsNames.JumpsBounded | libbrb_core/comm/core/comm_dns_resolver.c:1114-1116 | at most 65 jumps for every message, loops included |
| DnsNames.PointerRead | libbrb_core/comm/core/comm_dns_resolver.c:1108-1133 | a pointer written as in section 4.1.4 of RFC 1035, 0xC000 and the target in two octets, is read as the name at the target |
| DnsNames.StoredFits | libbrb_core/comm/core/comm_dns_resolver.c:1148-1170 | what is stored never exceeds the size of the name buffer |
| DnsNames.FollowPointer | libbrb_core/comm/core/comm_dns_resolver.c:1108-1133 | the pointer branch: result, offset, and nothing written outside the buffer |
| DnsNames.NameUnpack | libbrb_core/comm/core/comm_dns_resolver.c:1094-1172 | terminates on every message; success, offset and stored name are those of the specification; only the name's octets change |
| DnsMessages.HeaderRoundTrip | libbrb_core/comm/core/comm_dns_resolver.c:944-1085 | unpacking a packed header gives it back |
| DnsMessages.HeaderPackedAgain | libbrb_core/comm/core/comm_dns_resolver.c:1042-1085 | packing an unpacked header gives the octets back if and only if the reserved bits are zero |
| DnsMessages.HeaderOctets | libbrb_core/comm/core/comm_dns_resolver.c:944-984 | the octets of a header, bit by bit as in section 4.1.1 of RFC 1035 |
| DnsMessages.QueryOctets | libbrb_core/comm/core/comm_dns_resolver.c:832-874 | a query asks for recursion and holds one question, its type and the class IN at the end |
| DnsMessages.TokensAreFields | libbrb_core/comm/core/comm_dns_resolver.c:1013-1015 | strtok drops exactly the empty fields between dots |
| DnsMessages.PackedPath | libbrb_core/comm/core/comm_dns_resolver.c:1007-1020 | a packed name is read back label by label up to its root label |
| DnsMessages.QueryRoundTrip | libbrb_core/comm/core/comm_dns_resolver.c:832-874 | header, labels, type and class of a built query are read back up to its last octet if and only if the labels with one octet each stay under 256 |
| DnsMessages.HostNameBack | libbrb_core/comm/core/comm_dns_resolver.c:1313-1337 | the name stored for such a query is the host name itself, when no label is empty or longer than 63 |
| DnsMessages.SkipAgrees | libbrb_core/comm/core/comm_dns_resolver.c:759-780 | the question-skip loop stops where unpacking the name stops |
| DnsMessages.QuestionSkipped | libbrb_core/comm/core/comm_dns_resolver.c:753-790 | over a built query, of any length, the skip loop lands on the end of the message |
| DnsMessages.SkipQuestionSection | libbrb_core/comm/core/comm_dns_resolver.c:753-790 | the loops compute the specification, errors included |
| DnsMessages.HeaderPack | libbrb_core/comm/core/comm_dns_resolver.c:944-984 | writes the 12 header octets and nothing else |
| DnsMessages.LabelPack | libbrb_core/comm/core/comm_dns_resolver.c:989-1002 | writes the length and the first 63 octets of the label |
| DnsMessages.NamePack | libbrb_core/comm/core/comm_dns_resolver.c:1007-1020 | writes one label per nonempty field and the root label |
| DnsMessages.QuestionPack | libbrb_core/comm/core/comm_dns_resolver.c:1024-1036 | writes name, type and class in network order |
| DnsMessages.BuildQuery | libbrb_core/comm/core/comm_dns_resolver.c:832-874 | the buffer starts with the query, its size and id are returned |
| DnsMessages.HeaderUnpack | libbrb_core/comm/core/comm_dns_resolver.c:1042-1085 | fields by their bits, or failure without effect below 12 octets |
| DnsMessages.QueryRecord.Unpack | libbrb_core/comm/core/comm_dns_resolver.c:1313-1337 | name, type, class and offset, or an all-zero record on failure |
| DnsResolver.StepKeeps | libbrb_core/comm/core/comm_dns_resolver.c:184-712 | every call and event keeps the invariant and leaves the write and read events armed while they are needed |
| DnsResolver.StepKeepsIff | libbrb_core/comm/core/comm_dns_resolver.c:643-700 | a call or event keeps the invariant if and only if it is not a reply to a query that waits on req_list |
| DnsResolver.StrayRun | libbrb_core/comm/core/comm_dns_resolver.c:444-475 | a run in which a retransmitted query is answered while it is on req_list, after which the invariant does not hold |
| DnsResolver.ResolverIsSafe | libbrb_core/comm/core/comm_dns_resolver.c:184-712 | after any run without such a reply: slots in use on exactly one list, waiting_reply exactly on reply_list, at most one callback per query and none behind a cancellation, at most retry_count + 1 sends, no query lost |
| DnsResolver.WriteSendsPrefix | libbrb_core/comm/core/comm_dns_resolver.c:510-595 | a write event sends a prefix of req_list in its order and appends it to reply_list |
| DnsResolver.TickWalks | libbrb_core/comm/core/comm_dns_resolver.c:418-498 | a timer event gives up the expired queries up to the first retransmission, moves that one to req_list, and leaves the rest |
| DnsResolver.TimerCoverage | libbrb_core/comm/core/comm_dns_resolver.c:400-595 | a step keeps a timer while answers are awaited if and only if it is not a write event that sends with the timer off |
| DnsResolver.TimerLost | libbrb_core/comm/core/comm_dns_resolver.c:411-416 | a run after which an answer is awaited without a timer |
| DnsResolverLog.AnswerLog | libbrb_core/comm/core/comm_dns_resolver.c:643-700 | a reply calls its query back once, with a success, unless it was canceled; any other reply does nothing |
| DnsResolverLog.TickLog | libbrb_core/comm/core/comm_dns_resolver.c:418-498 | a timer event calls back, with a timeout, exactly the queries it reaches that are too old and not canceled |
| DnsResolverLog.CallbacksOf | libbrb_core/comm/core/comm_dns_resolver.c:184-712 | in every run a success comes exactly from a reply to the query, a timeout exactly from a timer event that finds it too old |
| DnsResolverLog.AnsweredEnds | libbrb_core/comm/core/comm_dns_resolver.c:643-700 | a query answered while it is awaited, and not canceled, has one callback for ever, the success |
| DnsResolverLog.CanceledEnds | libbrb_core/comm/core/comm_dns_resolver.c:358-395 | a query canceled while it is pending is never called back |
| DnsResolverLog.WriteTakes | libbrb_core/comm/core/comm_dns_resolver.c:510-595 | a write event sends from the head of req_list up to the first query that does not fit or is sent in part |
| DnsResolverLog.TickStamps | libbrb_core/comm/core/comm_dns_resolver.c:444-465 | a timer event gives the query that it moves back its own time, and leaves all other times |
| DnsResolverLog.SubMsecBound | libbrb_core/comm/core/comm_dns_resolver.c:714-717 | the milliseconds between two times, off by less than one |
| DnsResolverLog.AskedQuery | libbrb_core/comm/core/comm_dns_resolver.c:184-273 | the request of an accepted query asks for A or AAAA records of the host with its slot as the id |
| DnsResolverLog.RunAddressed | libbrb_core/comm/core/comm_dns_resolver.c:184-712 | in every run the request of a pending query carries its slot as the id |
| DnsResolver.Resolver.WriteEvent | libbrb_core/comm/core/comm_dns_resolver.c:510-595 | the loop over req_list is the write step, and keeps the resolver valid |
| DnsResolver.Resolver.GetHostByName | libbrb_core/comm/core/comm_dns_resolver.c:184-273 | asking is the ask step and returns the slot, or -1 without handler or slot |
| DnsResolver.Resolver.CancelPendingRequest | libbrb_core/comm/core/comm_dns_resolver.c:358-395 | canceling is the cancel step; 1 exactly when the slot was in use |
| DnsResolver.Resolver.PeriodicTimerEvent | libbrb_core/comm/core/comm_dns_resolver.c:400-508 | the walk over reply_list is the timer step |
| DnsResolver.Resolver.DataEvent | libbrb_core/comm/core/comm_dns_resolver.c:597-712 | a reply is the answer step: callback, slot freed, query off reply_list |
| ThreadPool.StepKeeps | libbrb_core/thread/thrd_pool_base.c:161-612 | every atomic step of every thread keeps the invariant, also when cancels spoil the flags |
| ThreadPool.PoolIsSafe | libbrb_core/thread/thrd_pool_base.c:161-612 | in every interleaving: slots free or on exactly one list, one owner per working job, jobs picked in the order of enqueueing, handler and finish callback at most once, callback behind handler exactly for the kinds the switch knows, no job lost that no cancel hit, and the assertion that a job was picked never fails |
| ThreadPoolCancels.CancelPreventsHandler | libbrb_core/thread/thrd_pool_base.c:526-528 | when a cancel's store comes before the worker looks at the flag, and no thread puts back flags without it, the job is never handled nor called back, however the run goes on |
| ThreadPoolCancels.CancelPreventsFinish | libbrb_core/thread/thrd_pool_base.c:284-286 | when it comes before the consumer looks at the flag, the finish callback is never made |
| ThreadPoolCancels.LateCancel | libbrb_core/thread/thrd_pool_base.c:526-568 | one that comes when the worker is about to call the handler does not prevent it |
| ThreadPoolCancels.UndoneCancel | libbrb_core/thread/thrd_pool_base.c:218 | one between the load and the store of the enqueueing thread is undone |
| ThreadPoolFlags.StoreClean | libbrb_core/thread/thrd_pool_base.c:161-174 | the store of a cancel leaves the flags clean if and only if the bits it had loaded are the ones due where the job now is |
| ThreadPoolFlags.CleanStep | libbrb_core/thread/thrd_pool_base.c:161-612 | from clean flags no step fails an assertion, and they stay clean if and only if the step is no harmful store of a cancel |
| ThreadPoolFlags.WholeRunsAreSound | libbrb_core/thread/thrd_pool_base.c:161-612 | a run in which every cancel stores the bits that are there fails no assertion |
| ThreadPoolFlags.TornIff | libbrb_core/thread/thrd_pool_base.c:161-174 | behind a cancel's store the pool can come to a failed assertion without any other cancel if and only if that store was harmful |
| ThreadPoolFlags.TornCancel | libbrb_core/thread/thrd_pool_base.c:574-576 | a cancel that loads the flags before the worker clears in_use and stores them behind it leads to a failed assertion |
| ThreadPoolFlags.TornRun | libbrb_core/thread/thrd_pool_base.c:264-299 | such a run from the initial state, with one worker, one job and one cancel |
| ThreadPoolCode.Pool.Enqueue | libbrb_core/thread/thrd_pool_base.c:176-239 | undisturbed: the job at the tail of the pending list with in_use set, or -1 and nothing changed when no slot is free |
| ThreadPoolCode.Pool.CancelLoad | libbrb_core/thread/thrd_pool_base.c:161-174 | the load of the flags; 0 for a negative id |
| ThreadPoolCode.Pool.CancelStore | libbrb_core/thread/thrd_pool_base.c:161-174 | the store of the flags loaded before, with cancelled set |
| ThreadPoolCode.Pool.Launch | libbrb_core/thread/thrd_pool_base.c:405-442 | a new worker at the top of its loop |
| ThreadPoolCode.Pool.WorkerStep | libbrb_core/thread/thrd_pool_base.c:489-612 | the next atomic step of a worker, with the assertions of the loop |
| ThreadPoolCode.Pool.ConsumeStep | libbrb_core/thread/thrd_pool_base.c:270-295 | the next atomic step of the consumer, with its assertions |
| ThreadPoolCode.Pool.ConsumeReplies | libbrb_core/thread/thrd_pool_base.c:264-299 | undisturbed and from clean flags it empties the done list, returns how many jobs were on it and fails no assertion |
| AioPq.StepKeeps | libbrb_aiopq/libbrb_aiopq.c:310-1360 | every call and event keeps the invariant, or ends the run in a failed assertion |
| AioPq.DispatcherIsSafe | libbrb_aiopq/libbrb_aiopq.c:310-1360 | after any run, disconnects included: conservation of the counters, count_cur is the length of both lists and within its limit, count_ready counts the online clients, the pool within its limits, requests handed over in the order of arrival, nothing waits while pqbuffer_pending is clear |
| AioPqRequests.EveryRequest | libbrb_aiopq/libbrb_aiopq.c:310-1426 | after any run every accepted request is in a slot of its own or has ended, by its number, as answered, canceled and replied to, or canceled unsent; none is both |
| AioPqRequests.OwnerSlots | libbrb_aiopq/libbrb_aiopq.c:409-456 | canceling by owner sets the flag of exactly the owner's requests, sent or not, and changes nothing else |
| AioPqRequests.ReqSlots | libbrb_aiopq/libbrb_aiopq.c:458-478 | canceling by number sets the flag of exactly this request and changes nothing else |
| AioPqRequests.OwnerCanceled | libbrb_aiopq/libbrb_aiopq.c:409-456 | no request of the owner that waits then is ever counted as a success, however the run goes on |
| AioPqRequests.ReqCanceled | libbrb_aiopq/libbrb_aiopq.c:458-478 | nor the request canceled by its number |
| AioPqRequests.SparedRun | libbrb_aiopq/libbrb_aiopq.c:1033-1043 | a request that no call of the run cancels does not end as a canceled one |
| AioPqPool.ScanFinds | libbrb_aiopq/libbrb_aiopq.c:743-790 | the search polls the clients that are not busy, in order, up to the first free one; the lost ones in front are offline then, nothing else changes |
| AioPqPool.GrowAnswers | libbrb_aiopq/libbrb_aiopq.c:484-516 | new clients are online exactly when polling says that they are free |
| AioPqPool.SearchStarts | libbrb_aiopq/libbrb_aiopq.c:735-806 | how many clients a search has started, when it finds one and when it does not |
| AioPqPool.HealthMarks | libbrb_aiopq/libbrb_aiopq.c:852-878 | exactly the clients whose connection is there are online; a lost one is not busy |
| AioPqPool.DecreaseCloses | libbrb_aiopq/libbrb_aiopq.c:1137-1201 | when exactly the last client is closed |
| AioPqPool.TickSends | libbrb_aiopq/libbrb_aiopq.c:1079-1135 | a timer event with enough free clients hands over every waiting request in order; the next one clears pqbuffer_pending |
| AioPq.StepAborts | libbrb_aiopq/libbrb_aiopq.c:357-361 | for every call and event, exactly when it fails an assertion; for the timer by what each of its dispatches finds |
| AioPq.GentleStep | libbrb_aiopq/libbrb_aiopq.c:310-1360 | a step that loses no connection with a request on it, and is gentle otherwise, fails no assertion and leaves none behind |
| AioPq.GentleRunsAreSound | libbrb_aiopq/libbrb_aiopq.c:310-1360 | runs of such steps from the initial state fail no assertion |
| AioPq.LostRequest | libbrb_aiopq/libbrb_aiopq.c:880-926 | a connection lost while busy keeps its request, and the next reply on it fails an assertion |
| AioPq.StaleRun | libbrb_aiopq/libbrb_aiopq.c:880-926 | a run of one connection that is lost while busy and then answers as free, where the next query fails an assertion |
| AioPq.CallbackInRead | libbrb_aiopq/libbrb_aiopq.c:998-1046 | whatever the result callback sends or cancels, the client is still busy with the same request and the clean-up keeps the invariant |
| AioPq.CallbackInDrop | libbrb_aiopq/libbrb_aiopq.c:1286-1311 | whatever the callback of a canceled request sends or cancels, the request is still the head of its list and the clean-up keeps the invariant |
| AioPq.Rewatched | libbrb_aiopq/libbrb_aiopq.c:341-379 | requests that wait without a timer are watched again by the next accepted request and by nothing else |
| AioPq.WatchedKeeps | libbrb_aiopq/libbrb_aiopq.c:341-379 | the timer stays set while requests wait if and only if the step is not a refused immediate send with the timer off |
| AioPq.Unwatched | libbrb_aiopq/libbrb_aiopq.c:371-379 | a run after which a request waits without a timer |
| AioPq.GrowKeeps | libbrb_aiopq/libbrb_aiopq.c:484-516 | starts clients up to the limit and keeps the pool's invariant |
| AioPq.SearchKeeps | libbrb_aiopq/libbrb_aiopq.c:735-806 | the search and its retry keep the pool's invariant and limits; a client found is not busy |
| AioPq.Base.PoolInitN | libbrb_aiopq/libbrb_aiopq.c:484-516 | the loop is the growth of the pool |
| AioPq.Base.GrabFree | libbrb_aiopq/libbrb_aiopq.c:735-806 | the two loops are the search; nothing while requests are pending, unless asked for an outstanding one |
| AioPq.Base.SendRequest | libbrb_aiopq/libbrb_aiopq.c:310-407 | the send step: discarded, buffered, or sent at once; the dispatcher is valid unless an assertion failed |
| AioPq.Base.BufferDispatch | libbrb_aiopq/libbrb_aiopq.c:1260-1360 | the head of the REQUEST list: dropped when canceled, sent, or left |
| AioPq.Base.EventClose | libbrb_aiopq/libbrb_aiopq.c:880-926 | the close step: offline and not busy, the request stays attached, and the dispatcher is valid |
| AioPq.Base.TimerTick | libbrb_aiopq/libbrb_aiopq.c:1079-1135 | the timer step: dispatches from the head until one fails |
| AioPq.Base.EventRead | libbrb_aiopq/libbrb_aiopq.c:928-1046 | the read step: the reply frees the client and is counted once |
| AioPq.Base.CancelByOwner | libbrb_aiopq/libbrb_aiopq.c:409-456 | marks exactly the owner's requests on both lists |
| AioPq.Base.CancelByReq | libbrb_aiopq/libbrb_aiopq.c:458-478 | marks the request, or fails an assertion |
| AioPq.Base.HealthTimer | libbrb_aiopq/libbrb_aiopq.c:852-878 | marks every client on- or offline |
| AioPq.Base.DecreaseTimer | libbrb_aiopq/libbrb_aiopq.c:1137-1201 | takes the last idle client away, never below count_begin |
| HashBlocks.FoldConcat | libbrb_core/crypto/md5.c:97-106 | folding block by block may be split between blocks |
| HashBlocks.BitWords | libbrb_core/crypto/md5.c:157-159 | the bit count by its two words, from the byte count's two words |
| HashBlocks.PaddingShape | libbrb_core/crypto/md5.c:134-168 | a one bit, zeros, and the number of bits modulo 2^64 in either byte order, ending a block with as few bytes as possible |
| Md5.CarryIff | libbrb_core/crypto/md5.c:77-81 | the counter stays exact if and only if fewer than 2^32 bytes are added at once |
| Md5.Context.Init | libbrb_core/crypto/md5.c:38-47 | an empty context |
| Md5.Context.Update | libbrb_core/crypto/md5.c:72-110 | appends the bytes: state, leftover buffer and low counter word are those of all bytes so far |
| Md5.Context.UpdateBig | libbrb_core/crypto/md5.c:49-70 | the same in pieces of 65535 bytes, with the counter exact |
| Md5.Context.Final | libbrb_core/crypto/md5.c:134-168 | with an exact counter the state is the fold over the padded message (sections 3.1 and 3.2 of RFC 1321) |
| Md5.Digest | libbrb_core/crypto/md5.c:72-168 | any split into updates under 2^32 bytes gives the hash of the whole message |
| Sha1.CarryIff | libbrb_core/crypto/sha1.c:151-153 | the bit counter stays exact if and only if fewer than 2^29 bytes are added, or the low word wraps anyway |
| Sha1.Context.Init | libbrb_core/crypto/sha1.c:132-141 | an empty context |
| Sha1.Context.Update | libbrb_core/crypto/sha1.c:143-168 | appends the bytes: state, leftover buffer and low counter word are those of all bytes so far |
| Sha1.Context.Pad | libbrb_core/crypto/sha1.c:179-182 | the byte-at-a-time padding loop terminates with 56 bytes buffered |
| Sha1.Context.Final | libbrb_core/crypto/sha1.c:171-184 | with an exact counter the state is the fold over the padded message (section 5.1.1 of FIPS 180-4) |
| Sha1.Digest | libbrb_core/crypto/sha1.c:143-184 | any split into updates under 2^29 bytes gives the hash of the whole message |
| Sha256.AllBits | libbrb_core/crypto/sha256.c:176-178 | the block counter plus the buffered bits is the length in bits modulo 2^64 |
| Sha256.Context.Init | libbrb_core/crypto/sha256.c:127-139 | an empty context |
| Sha256.Context.Update | libbrb_core/crypto/sha256.c:141-154 | appends the bytes one by one |
| Sha256.Context.Final | libbrb_core/crypto/sha256.c:156-187 | the state is the fold over the padded message, in one or two last blocks |
| Sha256.Digest | libbrb_core/crypto/sha256.c:141-187 | any split into updates gives the hash of the whole message |
| Blowfish.LowAdd | libbrb_core/crypto/blowfish.c:457-459 | the low half of a 64-bit sum is the 32-bit sum of the low halves |
| Blowfish.LowMaps | libbrb_core/crypto/blowfish.c:445-462 | taking low halves carries all operations of 64-bit words over to 32-bit words |
| Blowfish.EncryptSimulates | libbrb_core/crypto/blowfish.c:312-345 | the low halves of an encryption are those of 32-bit Blowfish, whatever is in the high halves |
| Blowfish.ExpandSimulates | libbrb_core/crypto/blowfish.c:382-443 | the low halves of all P and S entries after the key setup are those of 32-bit Blowfish, for every nonempty key |
| Blowfish.KeyedSimulates | libbrb_core/crypto/blowfish.c:312-443 | both together, from the initial tables and the key to the two words |
| Blowfish.RoundsBack | libbrb_core/crypto/blowfish.c:358-367 | round j of decryption against round 17 - j of encryption |
| Blowfish.DecryptEncrypt | libbrb_core/crypto/blowfish.c:312-380 | decryption undoes encryption, for all tables and words |
| Blowfish.EncryptDecrypt | libbrb_core/crypto/blowfish.c:312-380 | encryption undoes decryption |
| BlowfishWords.AddNat | libbrb_core/crypto/blowfish.c:457-459 | adding 32-bit words is adding numbers modulo 2^32 |
| BlowfishWords.BytesNat | libbrb_core/crypto/blowfish.c:447-455 | the four bytes of a word are its digits to base 256, the highest first |
| BlowfishWords.RoundValue | libbrb_core/crypto/blowfish.c:445-462 | the round function in numbers: the sum of two entries modulo 2^32, exclusive-or'd with the third, and the sum with the fourth |
| BlowfishWords.SubkeyOrder | libbrb_core/crypto/blowfish.c:312-345 | with S-boxes of zeros the halves are exchanged and exclusive-or'd with the subkeys 1, 3, .. 17 and 0, 2, .. 16 |
| BlowfishWords.NeutralWords | libbrb_core/crypto/blowfish.c:312-345 | what that asks of the words holds for 32 and for 64 bits |
| BlowfishWords.KeyWordNat | libbrb_core/crypto/blowfish.c:397-414 | the words of the key are four bytes each, the first highest, the key taken around again |
| BlowfishWords.KeySetup | libbrb_core/crypto/blowfish.c:382-443 | the tables after the key setup, without its loops: every pair is the encryption of the pair in front of it under the tables that are final in front of it and initial behind |
| Blowfish.Context.RoundFunction | libbrb_core/crypto/blowfish.c:445-462 | the round function on the arrays |
| Blowfish.Context.Encrypt | libbrb_core/crypto/blowfish.c:312-345 | the loop computes the cipher with the context's tables |
| Blowfish.Context.Decrypt | libbrb_core/crypto/blowfish.c:347-380 | the loop computes the cipher with the subkeys backwards |
| Blowfish.Context.Init | libbrb_core/crypto/blowfish.c:382-443 | fills both tables in place with the expansion of the key |
| Rc4.EveryRun | libbrb_core/crypto/rc4.c:40-87 | every state reached from any key is a permutation, and never has index2 just after index1 on the value 1 |
| Rc4.WalksNext | libbrb_core/crypto/rc4.c:72-77 | a state is of that kind if and only if its successor is |
| Rc4.PrevNext | libbrb_core/crypto/rc4.c:72-77 | the step is a bijection on states, with its inverse |
| Rc4.NextNumbers | libbrb_core/crypto/rc4.c:72-77 | both indexes move modulo 256 and the entries there are exchanged |
| Rc4.KeyByte | libbrb_core/crypto/rc4.c:79-81 | a byte is crypted with the entry at the sum of the entries at both indexes modulo 256 |
| Rc4.KeyedIs | libbrb_core/crypto/rc4.c:40-62 | the key schedule adds the entry and the key byte to the index in each of 256 steps |
| Rc4.KeysDiverge | libbrb_core/crypto/rc4.c:40-62 | keys lead to different indexes at the first step where their bytes, taken around again, differ |
| Rc4.Pieces | libbrb_core/crypto/rc4.c:64-87 | crypting in pieces is crypting at once |
| Rc4.Twice | libbrb_core/crypto/rc4.c:64-87 | crypting twice from equal states is the identity |
| Rc4.State.Init | libbrb_core/crypto/rc4.c:40-62 | identity permutation and key schedule in place, indexes zero |
| Rc4.State.SwapBytes | libbrb_core/crypto/rc4.c:92-102 | exchanges two entries, also an entry with itself |
| Rc4.State.Crypt | libbrb_core/crypto/rc4.c:64-87 | output and new state of the stream cipher, also when both buffers are the same |
| Base64.DecodeEncode | libbrb_core/crypto/base64.c:131-179 | decoding an encoding (section 4 of RFC 4648) gives the data followed by (3 - len mod 3) mod 3 zero bytes |
| Base64.EncodedApart | libbrb_core/crypto/base64.c:304-358 | different data have different encodings |
| Base64.GroupNumber | libbrb_core/crypto/base64.c:304-358 | four letters and three bytes are the same number of 24 bits |
| Base64.DecodeIgnoresJunk | libbrb_core/crypto/base64.c:146-151 | bytes outside the alphabet and `=`, NUL excepted, change nothing wherever they stand |
| Base64.CodeIsLetters | libbrb_core/crypto/base64.c:42 | the table of letters is the alphabet in its ranges |
| Base64.Table.Init | libbrb_core/crypto/base64.c:363-377 | the table maps every letter to its value, `=` to 0 and all else to -1 |
| Base64.EncodeToMb | libbrb_core/crypto/base64.c:304-358 | appends the encoding, for every data |
| Base64.EncodeBin | libbrb_core/crypto/base64.c:239-302 | the encoding of the data, or of its first 98301 bytes, within the static buffer |
| Base64.DecodeToMb | libbrb_core/crypto/base64.c:131-179 | appends what the text decodes to, for every text |
| Base64.DecodeBin | libbrb_core/crypto/base64.c:88-129 | the decoding up to the room of the buffer, nothing else written |

## Left out

- Failing allocations, mutexes of the list code, logging, statistics and everything behind sockets, kqueue, timers, pipes, libpq and OpenSSL: only their outcomes appear, as parameters.
- DLinkedListAddBefore, DLinkedListAddAfter and the middle branch of DLinkedListAddPos, which do not maintain `size`; the filtered and debug variants and the bubble sort, which add nothing harder.
- Moving an orphan node, which leaves `size` unchanged: the two moves ask for a member.
- Comparators that are no strict weak order: for them only `SortKeepsItems` is claimed.
- JsonRoundTrip.RoundTrip: covers integer numbers only, because "%.2f" loses digits; strtod and "%.2f" are parameters, and strtod is asked to read the printed integer back, which it does not for integers outside a long or too large for a double.
- BrbJsonParseConfigString, the comment-stripping variant, BrbJsonValueAddValue, the typed getters and the file readers, which add only easy members.
- Escaping strings of 2^30 bytes and more, where twice the size overflows an int.
- JsonPrinter.AddSlashed: does not model null arguments, which return -1.
- DnsNames.NameUnpack: leaves out the rdlength accumulation, which only sums the label sizes.
- Resource records and answer arrays of rfc1035AnswersUnpack, PTR and ALL queries.
- DnsMessages.BuildQuery: asks that the buffer holds the query, because the packers do not look at its size.
- A DNS reply without a readable header is treated by the code as one with id 0, so it answers the query in slot 0, and so it does here.
- DnsResolver: callbacks do not call back into the resolver; what the two lists are once a reply has been deleted from the wrong one is modelled only as far as `StepKeepsIff` needs it.
- DnsResolver.Resolver.DataEvent: asks that the reply is not such a one.
- Replies: which addresses go into the callback, and its cut at the maximal count.
- ThreadPool: one consuming thread, handlers as one atomic step, no shutdown, no notify pipe, and waking up is not guaranteed. ThreadPoolJobEnqueue reads job_id behind the unlocking, which is not modelled; nor are compilers that merge the stores of two flags.
- AioPq: a callback that sends inside a timer event is shown to keep the invariant, but not that the event's loop then ends; count_busy is only shown not to be below the number of busy clients; flushing, the delay after failures and socket states are not modelled.
- The compression steps of MD5, SHA-1 and SHA-256 and the formatting of digests; conformance of the SHA-256 compression is not claimed.
- Sha1.Context.Chunks: BrbSha1_Transform overwrites the caller's whole blocks in place; the model keeps the data.
- MD5 on machines that are not little-endian.
- The initial P and S tables of Blowfish, which are parameters.
- Sha256.Context.Update: asks for fewer than 2^31 bytes, because the index is an int.
- brb_base64_encode_bin_into, whose loop guard compares a boolean, and the two forms for C strings, whose loops are those of the binary forms; that the static result is overwritten by the next call.
