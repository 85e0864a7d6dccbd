# Work-item subscribers, comments and actions

This project models the `Workitem` class of rtcclient, a Python client for IBM
Rational Team Concert. It covers the class's change-management operations:

- **Subscriber engine.** A work item's subscribers live in the `rtc_cm:subscribers`
  property of its parsed RDF body. The parser gives that property one of three
  shapes: no key, a bare mapping (one subscriber), or a list (two or more).
  - `_add_subscriber` and `_remove_subscriber` branch on that shape. They edit the
    parsed body in place and return an "already existed" or "was missing" flag.
  - `addSubscriber(s)` and `removeSubscriber(s)` wrap them in a cycle: one GET of
    the subscriber-scoped URL, then the edits, then one PUT carrying the GET's
    ETag as `If-Match`. `addSubscriber`, `removeSubscriber` and
    `removeSubscribers` skip the PUT when the flags say nothing changed;
    `addSubscribers` always sends it (see Findings).
  - `_check_exist_subscriber` and `_check_missing_subscriber` compare one
    subscriber mapping's URL with the new one. They are `CheckExist` and
    `CheckMissing`, the comparisons inside `Add` and `Remove`.
- **Comments.** `addComment` derives the new comment's URL from the collection's
  `totalCount` and POSTs it conditioned on the collection's ETag.
  `getCommentByID` validates the id (`bool` refused, `str` through `int()`, `int`
  accepted) before fetching the comment.
- **Identifiers and actions.** The work-item id is the last path segment of its
  URL. The workflow discriminator is the second-to-last segment of its state URL
  (`split("/")[-2]`). `getAction` does a first-exact-title scan that ends in
  NotFound when nothing matches.

Modules:

- `Base` holds the shared types: `Option`, `Result`, the error kinds (BadValue,
  NotFound, IndexError, HTTP status) and the dynamically typed Python argument
  (`PyValue`).
- `PyText` models the Python string operations the code relies on:
  `str.split("/")` with its inverse `"/".join`, negative indexing, `str(int)`,
  and `int(str)` (whitespace stripping, one sign, underscores between digits).
- `Subscribers` holds the wire shapes and the pure add and remove rules, for one
  URL and for batches. It also holds the normaliser between a shape and an
  ordered member list, and their lemmas.
- `RtcServer` is a stand-in for the service and the client object (`rtc_obj`).
  It is a class holding:
  - the subscriber representation and its version (the ETag is the version
    number in decimal);
  - the comment collection and its version;
  - the person directory (`getOwnedBy`);
  - the paged action fetch;
  - logs of every GET, PUT, POST and person lookup.

  Writes honour `If-Match`: a stale ETag gets 412 and changes nothing.
- `Workitems` holds the `Workitem` class, with one method per method of the
  source, and `RawData`, the parsed subscriber body that the add and remove
  steps edit in place. The `for email in emails_list` loops of the two batch
  methods are methods of their own (`AddEach`, `RemoveEach`), called where the
  loop stands.
  - Each subscriber and comment method states its requests (how many GETs and PUTs, to which URL, with
    which headers) and the new server state. It states them in terms of the
    pure rules of `Subscribers`, whose properties are proved there.

The model follows the code as written, including where it is surprising or
differs from the methods' own doc comments:

- An invalid email is refused only after the subscriber GET. `_add_subscriber`
  and `_remove_subscriber` validate it, and they run after `_perform_subscribe`.
  The lookup (`getOwnedBy`) is not reached.
- `addSubscribers` writes even when every email was already subscribed, because
  its accumulator starts at False (line 169). Its doc comment (lines 156-157)
  promises that nothing more is done in that case. `AddSubscribers` models the
  code: one PUT for every batch of valid emails. The skip rule the doc comment
  describes is proved separately, about an accumulator started at True, and is
  recorded under Findings.
- A comment that cannot be fetched is reported as BadValue, not NotFound.
- `addComment` inserts the message into the RDF payload without escaping it.

## Model

| member | source | states |
|---|---|---|
| Workitems.Workitem.constructor | rtcclient/workitem.py:26-30 | without an explicit id, the identifier is a slash-free final segment of the URL; with one, it is that id |
| PyText.LastSegment | rtcclient/workitem.py:30 | `split("/")[-1]` has no slash and ends the string, either as all of it or right after a slash |
| PyText.JoinSplit | rtcclient/workitem.py:30 | `"/".join(s.split("/")) == s`: splitting loses nothing |
| PyText.Split | rtcclient/workitem.py:30 | `str.split("/")` gives at least one piece |
| PyText.SplitPieces | rtcclient/workitem.py:374-376 | no piece of a split holds a slash, and there are two or more pieces exactly when the string has a slash |
| PyText.PenultimateSegment | rtcclient/workitem.py:374-376 | `split("/")[-2]` exists exactly when the string has a slash; it is slash-free, and followed by "/" and the last segment it ends the string as a segment |
| Workitems.CustomizedAttr | rtcclient/workitem.py:374-376 | the workflow discriminator is IndexError exactly for a state URL without a slash, otherwise the segment before the last one |
| PyText.LastSegmentAfterSlash | rtcclient/workitem.py:68-69 | the last segment of `prefix + "/" + t` is `t` for a slash-free `t`, so a comment URL names its own id |
| PyText.DecimalRoundTrip | rtcclient/workitem.py:61-69 | `int(str(i)) == i` for every int, negative ones included |
| PyText.Decimal | rtcclient/workitem.py:68-69 | `"%s" % comment_id` has no slash and starts with a digit or `-`, so it is a single path segment |
| Workitems.ActionsQuery | rtcclient/workitem.py:366-380 | `getActions` fails with IndexError exactly for a state URL without a slash; otherwise it asks for the "Action" pages of the work item's project area, 100 to a page, scoped by `CustomizedAttr` of the state URL |
| PyText.ParseIntNeedsDigit | rtcclient/workitem.py:61-62 | `int()` of a string without a decimal digit fails |
| PyText.ParseIntRefusesSeparator | rtcclient/workitem.py:61-62 | `int()` of a string that starts with one of the ASCII separators U+001C to U+001F fails: `int()` strips only ASCII tab to carriage return, space and non-ASCII whitespace |
| Workitems.CommentIdAccepts | rtcclient/workitem.py:58-66 | every int, negatives included, is accepted as a comment id, and so is its decimal text, with the same value |
| Workitems.CommentIdRejects | rtcclient/workitem.py:58-66 | a bool, None, a value of another type, or a string with no digit is refused with BadValue |
| Workitems.CommentId | rtcclient/workitem.py:58-66 | the id is accepted exactly for an int or a str that `int()` parses; an int is taken as is, a str as its parsed value; every refusal is BadValue |
| PyText.ParseInt | rtcclient/workitem.py:61-62 | `int()` succeeds only when the stripped text holds a decimal digit, and gives a negative value only after a leading `-` |
| Workitems.Workitem.GetCommentByID | rtcclient/workitem.py:47-75 | an invalid id is refused with no request; otherwise exactly one GET of `<url>/rtc_cm:comments/<id>`, whose result is that comment when it exists and BadValue when it does not |
| Workitems.Workitem.AddComment | rtcclient/workitem.py:77-133 | one GET of the collection (session headers only); one POST to `.../oslc:comment` with RDF headers and `If-Match` equal to the GET's ETag; the payload's URL ends in the pre-insert count, and the message is inserted verbatim; the new comment is appended and returned, and the collection's version goes up by one, so the GET's ETag is stale afterwards |
| Workitems.WriteHeaders | rtcclient/workitem.py:243-249 | write headers are the session headers with the RDF content type, accept type, protocol version 2.0 and `If-Match` set to the ETag, every other header kept |
| Workitems.Workitem.PerformSubscribe | rtcclient/workitem.py:239-251 | one GET of `<url>?oslc_cm.properties=rtc_cm:subscribers` with RDF headers; returns the current representation and headers whose `If-Match` is the GET's ETag |
| Workitems.Workitem.UpdateSubscribe | rtcclient/workitem.py:231-237 | one PUT to the same subscriber URL; it succeeds and replaces the representation exactly when `If-Match` carries the current ETag |
| Workitems.Workitem.AddSubscriberTo | rtcclient/workitem.py:253-290 | an invalid email (not a str, or no `@`) gives BadValue with no lookup and no change; otherwise one lookup, and the representation and flag become those of `AddToDoc`, via the for-else scan with `break` |
| Subscribers.AddToDoc | rtcclient/workitem.py:259-290 | add reports "existed" exactly for a URL already present and then changes nothing; otherwise the URL is appended after the old members, the namespace is declared when the property is created, and a well-shaped property stays well-shaped |
| Subscribers.Add | rtcclient/workitem.py:264-290 | on the property alone, through `CheckExist` (lines 338-344): the flag is "existed" exactly when the URL is a member, and then the property is unchanged; otherwise the members become the old members with the URL appended; well-shapedness is kept |
| Subscribers.AddIsAppendDenormalized | rtcclient/workitem.py:264-288 | on a well-shaped property, adding a new URL gives the wire shape of old members + [url]: absent becomes a bare mapping, a mapping a two-element list, a list grows at its end |
| Subscribers.AddSetSpec | rtcclient/workitem.py:264-288 | adding keeps a duplicate-free member list duplicate-free, and its member set becomes the old set plus the URL |
| Subscribers.AddIdempotent | rtcclient/workitem.py:135-149 | adding the same subscriber a second time reports "existed" and changes nothing |
| Workitems.Workitem.RemoveSubscriberFrom | rtcclient/workitem.py:292-336 | an invalid email gives BadValue with no lookup and no change; otherwise one lookup, and the representation and flag become those of `RemoveFromDoc`, via the for-else scan with `remove` and `break` |
| Subscribers.RemoveFromDoc | rtcclient/workitem.py:298-336 | remove reports "missing" exactly for a URL not present and then changes nothing; otherwise the members lose the URL's first occurrence, the namespace is untouched, and a well-shaped property stays well-shaped |
| Subscribers.Remove | rtcclient/workitem.py:301-336 | on the property alone, through `CheckMissing` (lines 346-352): the flag is "missing" exactly when the URL is not a member, and then the property is unchanged; the members become the old ones without the URL's first occurrence; well-shapedness is kept |
| Subscribers.RemoveFirst | rtcclient/workitem.py:320-330 | the scan with `subs.remove` and `break`: without an occurrence the list is unchanged, with one it is one shorter |
| Subscribers.RemoveFirstSpec | rtcclient/workitem.py:320-330 | the removal deletes exactly the first occurrence (`us[..i] + us[i+1..]` at the first index `i` holding the URL) and keeps the order of the rest |
| Subscribers.RemoveFirstSet | rtcclient/workitem.py:320-330 | on a duplicate-free list, the result is duplicate-free and its set is the old set minus the URL |
| Subscribers.RemoveIsDeleteDenormalized | rtcclient/workitem.py:307-330 | on a well-shaped property, removing gives the wire shape of the reduced members: a mapping disappears, a two-element list collapses to the survivor, a longer list shrinks |
| Subscribers.RemoveSetSpec | rtcclient/workitem.py:307-330 | removing keeps a duplicate-free member list duplicate-free, and its set becomes the old set without the URL |
| Subscribers.RemoveUndoesAdd | rtcclient/workitem.py:264-330 | removing a subscriber just added restores the old member list, and on a well-shaped property the old wire shape |
| Subscribers.NormalizeRoundTrip | rtcclient/workitem.py:264-278 | a well-shaped property is the wire shape of its own member list |
| Workitems.Workitem.AddSubscriber | rtcclient/workitem.py:135-151 | exactly one GET; an invalid email then gives BadValue with no PUT; otherwise there is one PUT, with the GET's ETag, exactly when the URL was not yet subscribed, and the new representation is `AddToDoc` of the old |
| Workitems.Workitem.RemoveSubscriber | rtcclient/workitem.py:183-199 | exactly one GET; an invalid email then gives BadValue with no PUT; otherwise there is one PUT, with the GET's ETag, exactly when the URL was subscribed, and the new representation is `RemoveFromDoc` of the old |
| Workitems.Workitem.AddEach | rtcclient/workitem.py:169-174 | the add loop: lookups for the emails before the first invalid one; BadValue if there is an invalid one; otherwise the representation and accumulated flag of `AddAll`, with the flags folded from False as at line 169 |
| Workitems.Workitem.RemoveEach | rtcclient/workitem.py:217-222 | the remove loop: as for add, with `RemoveAll` and the flags folded from True as at line 217 |
| Workitems.Workitem.AddSubscribers | rtcclient/workitem.py:153-181 | a missing (non-iterable) list gives BadValue before any request; otherwise one GET; an invalid email gives BadValue with no PUT; otherwise exactly one PUT of the batch result with the GET's ETag, and the version goes up by one, even when every email was already subscribed (see Findings) |
| Workitems.Workitem.RemoveSubscribers | rtcclient/workitem.py:201-229 | a missing list gives BadValue before any request; otherwise one GET; an invalid email gives BadValue with no PUT; otherwise one PUT of the batch result exactly when some URL of the batch was subscribed |
| Workitems.FirstInvalid | rtcclient/workitem.py:172-174 | the batch stops at the first email that is not a str with `@`: every email before it is valid, and the one at it is not |
| Workitems.AddedUpToIsAddAll | rtcclient/workitem.py:169-174 | the add loop, turn by turn, is the batch fold `AddAll` of the resolved URLs, its accumulator that fold's flags under `Aggregate` |
| Workitems.RemovedUpToIsRemoveAll | rtcclient/workitem.py:217-222 | the remove loop, turn by turn, is the batch fold `RemoveAll`, its accumulator that fold's flags under `Aggregate` |
| Subscribers.Aggregate | rtcclient/workitem.py:169-174 | the `flags and flag` accumulator is never True unless it started True |
| Subscribers.AggregateSkipsIffAllNoOp | rtcclient/workitem.py:216-225 | the True-started accumulator is True exactly when every per-email flag is |
| Subscribers.RemoveAllMissingIff | rtcclient/workitem.py:216-225 | every flag of a remove batch is "missing" exactly when no URL of the batch was subscribed before it |
| Subscribers.RemoveAllNoOp | rtcclient/workitem.py:216-225 | a remove batch of URLs none of which is subscribed changes nothing |
| Subscribers.RemoveAll | rtcclient/workitem.py:216-222 | a remove batch yields one flag per URL, keeps the namespace declaration, and keeps a well-shaped property well-shaped |
| Subscribers.RemoveAllMembers | rtcclient/workitem.py:216-222 | on a duplicate-free list, a remove batch leaves it duplicate-free with the old set minus the batch's URLs |
| Subscribers.AsWrittenAddAggregateNeverSkips | rtcclient/workitem.py:168-179 | the False-started accumulator of `addSubscribers` is False whatever the flags, so the PUT is never skipped |
| Subscribers.AddBatchOfPresentUrlStillWrites | rtcclient/workitem.py:168-179 | a batch of one already-subscribed URL leaves the representation unchanged; the True-started accumulator would skip the write, the False-started one does not |
| Subscribers.IntendedAddBatchSkipsIffAllPresent | rtcclient/workitem.py:153-179 | the accumulator started at True skips the write exactly when every URL of the batch was already subscribed, and skipping then loses nothing |
| Subscribers.AddAllExistedIff | rtcclient/workitem.py:168-177 | every flag of an add batch is "existed" exactly when every URL of the batch was subscribed before it |
| Subscribers.AddAllNoOp | rtcclient/workitem.py:168-177 | an add batch of already-subscribed URLs changes nothing |
| Subscribers.AddAll | rtcclient/workitem.py:168-174 | an add batch yields one flag per URL, keeps the old members first in their old order, and keeps a well-shaped property well-shaped |
| Subscribers.AddAllMembers | rtcclient/workitem.py:168-174 | after an add batch the member set is the old set plus the batch, and a duplicate-free member list stays duplicate-free |
| Workitems.Workitem.GetAction | rtcclient/workitem.py:382-405 | a name that is not a non-empty str gives BadValue; a state URL without a slash gives IndexError; otherwise the result is the first action whose title equals the name, and NotFound exactly when there is none (or no actions at all) |

## Left out

- HTTP transport, `verify=False`, and transport failures other than a stale
  ETag. The service is the `RtcServer.Server` class, and a PUT or POST that does
  not return 2xx is an error.
- `FieldBase`, its `get`/`put`/`post`, and `rtcclient.models.Comment` are not
  part of this model. Building a comment object is the server's single-comment
  GET.
- The xmltodict codec and the RDF comment template text. The parsed subscriber
  body is the `Doc` datatype. The comment payload is its `rdf:about` URL and its
  description text.
- Subscriber mappings keep only their `@rdf:resource` URL. `list.remove` compares
  whole mappings, and here that is comparison by URL.
- `getComments`, `getSubscribers` and `getStates` are left out. They are single
  calls to `_get_paged_resources` with fixed arguments and hold no logic of
  their own. `getActions` is modelled as the query it builds (`ActionsQuery`)
  plus the paged fetch as a given function.
- `__str__`, logging, and `copy.deepcopy` of the headers. Headers are map
  values, so each copy is fresh.
- Concurrency. The model server is sequential, so two callers racing on one
  ETag are not modelled.
- A body without `rtc_cm:state`, or without its `@rdf:resource`, which raises
  AttributeError in Python. The state URL is a field of the work item.
- `addComment` with its default `msg=None`. The message is a string.
- `int()` on non-ASCII Unicode digits is not modelled: only `0`-`9` count as
  digits.
- Python 2. The model uses Python 3 semantics: `int()` accepts underscores
  between digits, and an int is unbounded. Under Python 2, which the source
  still supports through `six` (line 8), `int("1_0")` raises ValueError, and a
  large id becomes a `long`. Line 63 (`isinstance(comment_id, int)`) rejects a
  `long`, so such an id would be BadValue there.
- PyText.ParseInt, PyText.DecimalRoundTrip, Workitems.CommentId,
  Workitems.CommentIdAccepts and Workitems.Workitem.GetCommentByID leave out
  the default limit of 4300 digits on int/str conversion. That limit comes
  with CPython 3.11 and later and with the security releases of 3.7 to 3.10
  (`sys.set_int_max_str_digits`). The model follows Python 3 releases without
  it, where conversion has no digit limit. Under the limit, `int()` of a longer
  digit string raises ValueError, which line 66 reports as BadValue. An int
  id with more digits makes `"%s" % comment_id` at line 69 raise an uncaught
  ValueError, because that line is outside the `try`. The model accepts both
  ids and sends the GET.
- Batch arguments. A non-iterable argument is `None`. Anything iterable is the
  sequence it yields, so a set's iteration order, or the characters of a str
  passed as a batch, is whatever sequence the caller gives.

## Findings

| source | as written | input that shows it | evidently intended | confidence | as-written member | corrected member |
|---|---|---|---|---|---|---|
| rtcclient/workitem.py:169-179 | `addSubscribers` starts `existed_flags` at False and updates it with `existed_flags and existed_flag`, so it is False after any batch and the PUT is always issued | a batch of one email whose URL is already subscribed: its flag is True, the representation is unchanged, yet one PUT is sent | skip the PUT when every email was already subscribed, as the method's doc comment (lines 156-157) and `removeSubscribers` (line 217) do: start the accumulator at True | high, not executed | Subscribers.AsWrittenAddAggregateNeverSkips | Subscribers.IntendedAddBatchSkipsIffAllPresent |
