/** The work-item object: subscriber add/remove with conditional write,
    comment append and lookup, and the action lookup by title. */
module Workitems {
  import opened Base
  import opened PyText
  import opened Subscribers
  import opened RtcServer

  /** The RDF media type used for subscriber and comment writes. */
  const OslcCrRdf: string := "application/rdf+xml"

  /** The subscriber-scoped URL of a work item, read and written alike. */
  function SubscribersUrl(itemUrl: string): string
  {
    itemUrl + "?oslc_cm.properties=rtc_cm:subscribers"
  }

  function CommentsUrl(itemUrl: string): string
  {
    itemUrl + "/rtc_cm:comments"
  }

  /** The URL of the comment with a given id. */
  function CommentUrl(itemUrl: string, id: int): string
  {
    CommentsUrl(itemUrl) + "/" + Decimal(id)
  }

  /** The session headers with the RDF content type, accept type and
      protocol version set. */
  function RdfHeaders(base: Headers): Headers
  {
    base["Content-Type" := OslcCrRdf]["Accept" := OslcCrRdf]["OSLC-Core-Version" := "2.0"]
  }

  /** The headers of a conditional write: the RDF headers plus `If-Match`. */
  function WriteHeaders(base: Headers, etag: string): (h: Headers)
    ensures h.Keys == base.Keys + {"Content-Type", "Accept", "OSLC-Core-Version", "If-Match"}
    ensures h["If-Match"] == etag && h["OSLC-Core-Version"] == "2.0"
    ensures h["Content-Type"] == OslcCrRdf && h["Accept"] == OslcCrRdf
    ensures forall k :: k in base && k !in {"Content-Type", "Accept", "OSLC-Core-Version", "If-Match"} ==> h[k] == base[k]
  {
    RdfHeaders(base)["If-Match" := etag]
  }

  /** The check `_add_subscriber` and `_remove_subscriber` make first: a str
      holding an `@`. */
  predicate ValidEmail(v: PyValue)
  {
    v.PyStr? && '@' in v.s
  }

  function EmailText(v: PyValue): string
  {
    if v.PyStr? then v.s else ""
  }

  /** The subscriber URLs a batch of emails resolves to. */
  function Resolve(directory: string -> Url, emails: seq<PyValue>): (urls: seq<Url>)
    ensures |urls| == |emails|
    decreases |emails|
  {
    if emails == [] then []
    else Resolve(directory, emails[..|emails| - 1]) + [directory(EmailText(emails[|emails| - 1]))]
  }

  /** The email texts of a batch, as handed to the person lookup. */
  function Texts(emails: seq<PyValue>): (texts: seq<string>)
    ensures |texts| == |emails|
    decreases |emails|
  {
    if emails == [] then []
    else Texts(emails[..|emails| - 1]) + [EmailText(emails[|emails| - 1])]
  }

  /** The position of the first invalid email of a batch, or its length. */
  function FirstInvalid(emails: seq<PyValue>): (k: nat)
    ensures k <= |emails|
    ensures forall i :: 0 <= i < k ==> ValidEmail(emails[i])
    ensures k < |emails| ==> !ValidEmail(emails[k])
  {
    FirstInvalidFrom(emails, 0)
  }

  /** The position of the first invalid email at or after `k`, or the
      batch's length. */
  function FirstInvalidFrom(emails: seq<PyValue>, k: nat): (r: nat)
    requires k <= |emails|
    ensures k <= r <= |emails|
    ensures forall i :: k <= i < r ==> ValidEmail(emails[i])
    ensures r < |emails| ==> !ValidEmail(emails[r])
    decreases |emails| - k
  {
    if k == |emails| || !ValidEmail(emails[k]) then k else FirstInvalidFrom(emails, k + 1)
  }

  /** The comment-id check of `getCommentByID`: a bool is refused, a str is
      converted with `int()`, an int is taken as it is, anything else is
      refused. Refusals are BadValue. */
  function CommentId(v: PyValue): (r: Result<int>)
    ensures r.Ok? <==> v.PyInt? || (v.PyStr? && ParseInt(v.s).Some?)
    ensures r.Err? ==> r.error == BadValue
    ensures v.PyInt? ==> r == Ok(v.i)
    ensures v.PyStr? && r.Ok? ==> ParseInt(v.s) == Some(r.value)
  {
    match v
    case PyBool(_) => Err(BadValue)
    case PyStr(s) => (match ParseInt(s) case Some(i) => Ok(i) case None => Err(BadValue))
    case PyInt(i) => Ok(i)
    case _ => Err(BadValue)
  }

  /** Every int is accepted, negative ones included, and so is its decimal
      text: the id a caller reads off a comment URL is the id it stands for. */
  lemma CommentIdAccepts(n: int)
    ensures CommentId(PyInt(n)) == Ok(n)
    ensures CommentId(PyStr(Decimal(n))) == Ok(n)
  {
    DecimalRoundTrip(n);
  }

  /** Booleans, None, other types and strings without a digit are refused. */
  lemma CommentIdRejects(v: PyValue)
    requires v.PyBool? || v.PyNone? || v.PyOther? ||
             (v.PyStr? && forall i :: 0 <= i < |v.s| ==> !IsDigit(v.s[i]))
    ensures CommentId(v) == Err(BadValue)
  {
    if v.PyStr? {
      ParseIntNeedsDigit(v.s);
    }
  }

  /** `s.split("/")[-2]` of the work item's state URL: the customised
      attribute that scopes its workflow, or IndexError without a slash. */
  function CustomizedAttr(stateUrl: string): (r: Result<string>)
    ensures r.Err? <==> '/' !in stateUrl
    ensures r.Err? ==> r.error == IndexError
    ensures r.Ok? ==> '/' !in r.value && EndsWithSegment(stateUrl, r.value + "/" + LastSegment(stateUrl))
  {
    match PenultimateSegment(stateUrl)
    case None => Err(IndexError)
    case Some(attr) => Ok(attr)
  }

  /** `getActions`: the paged fetch of the actions of the work item's
      workflow in its project area, a hundred to a page. */
  function ActionsQuery(stateUrl: string, contextId: string): (r: Result<PagedQuery>)
    ensures r.Err? <==> '/' !in stateUrl
    ensures r.Err? ==> r.error == IndexError
    ensures r.Ok? ==>
      && r.value.kind == "Action" && r.value.projectAreaId == contextId && r.value.pageSize == "100"
      && CustomizedAttr(stateUrl) == Ok(r.value.customizedAttr)
  {
    match CustomizedAttr(stateUrl)
    case Err(e) => Err(e)
    case Ok(attr) => Ok(PagedQuery("Action", contextId, attr, "100"))
  }

  /** No action before position `i` has the title. */
  predicate NoneTitledBefore(actions: seq<Action>, title: string, i: nat)
    requires i <= |actions|
  {
    forall j :: 0 <= j < i ==> actions[j].title != title
  }

  /** A comment as the client materialises it: its URL and description. */
  datatype Comment = Comment(url: string, description: string)

  /** The parsed body of a subscriber GET, edited in place by the add and
      remove steps before it is written back. */
  class RawData {
    var subscribers: Subs
    var rtcCmNs: Option<string>

    constructor (d: Doc)
      ensures Value() == d
    {
      subscribers, rtcCmNs := d.subscribers, d.rtcCmNs;
    }

    function Value(): Doc
      reads this
    {
      Doc(subscribers, rtcCmNs)
    }
  }

  class Workitem {
    const url: string
    const identifier: string
    /** The client object (`rtc_obj`), standing for the service behind it. */
    const rtc: Server
    /** The `@rdf:resource` of the work item's `rtc_cm:state`. */
    const stateUrl: string
    /** The id of the project area that contains the work item. */
    const contextId: string

    /** A work item at `url`; without an explicit id, the last segment of
        the URL is its id. */
    constructor (url: string, rtc: Server, workitemId: Option<string>, stateUrl: string, contextId: string)
      ensures this.url == url && this.rtc == rtc
      ensures this.stateUrl == stateUrl && this.contextId == contextId
      ensures workitemId.Some? ==> identifier == workitemId.value
      ensures workitemId.None? ==> '/' !in identifier && EndsWithSegment(url, identifier)
    {
      this.url := url;
      this.rtc := rtc;
      this.stateUrl := stateUrl;
      this.contextId := contextId;
      this.identifier := if workitemId.Some? then workitemId.value else LastSegment(url);
    }

    // -------------------------------------------------------------------------
    // Subscribers
    // -------------------------------------------------------------------------

    /** `_perform_subscribe`: one GET of the subscriber-scoped representation.
        The headers returned for the write carry the GET's ETag as If-Match. */
    method PerformSubscribe() returns (headers: Headers, raw: RawData)
      modifies rtc`gets
      ensures fresh(raw)
      ensures rtc.gets == old(rtc.gets) + [Get(SubscribersUrl(url), RdfHeaders(rtc.headers))]
      ensures raw.Value() == rtc.doc
      ensures headers == WriteHeaders(rtc.headers, ETag(rtc.version))
    {
      var subscribersUrl := SubscribersUrl(url);
      headers := rtc.headers;
      headers := headers["Content-Type" := OslcCrRdf];
      headers := headers["Accept" := OslcCrRdf];
      headers := headers["OSLC-Core-Version" := "2.0"];
      var body, etag := rtc.GetSubscribers(Get(subscribersUrl, headers));
      headers := headers["If-Match" := etag];
      raw := new RawData(body);
    }

    /** `_update_subscribe`: the PUT of the edited representation to the
        subscriber-scoped URL with the given headers. */
    method UpdateSubscribe(headers: Headers, raw: RawData) returns (r: Outcome)
      modifies rtc`puts, rtc`doc, rtc`version
      ensures rtc.puts == old(rtc.puts) + [Put(SubscribersUrl(url), headers, raw.Value())]
      ensures IfMatches(headers, old(rtc.version)) ==>
        r == Pass && rtc.doc == raw.Value() && rtc.version == old(rtc.version) + 1
      ensures !IfMatches(headers, old(rtc.version)) ==>
        r == Fail(HttpError(412)) && rtc.doc == old(rtc.doc) && rtc.version == old(rtc.version)
    {
      var status := rtc.PutSubscribers(Put(SubscribersUrl(url), headers, raw.Value()));
      r := if IsSuccess(status) then Pass else Fail(HttpError(status));
    }

    /** `_add_subscriber`: validate the email, resolve it, and add its URL
        to the representation in place; the result is the "already existed"
        flag. An invalid email is refused before the lookup. */
    method AddSubscriberTo(email: PyValue, raw: RawData) returns (r: Result<bool>)
      modifies raw, rtc`lookups
      ensures !ValidEmail(email) ==>
        r == Err(BadValue) && raw.Value() == old(raw.Value()) && rtc.lookups == old(rtc.lookups)
      ensures ValidEmail(email) ==>
        && rtc.lookups == old(rtc.lookups) + [email.s]
        && r == Ok(AddToDoc(old(raw.Value()), rtc.directory(email.s)).1)
        && raw.Value() == AddToDoc(old(raw.Value()), rtc.directory(email.s)).0
    {
      if !ValidEmail(email) {
        return Err(BadValue);
      }
      var existed := false;
      var newUrl := rtc.OwnedBy(email.s);
      var subs := raw.subscribers;
      if subs.Absent? {
        raw.rtcCmNs := Some(RtcCmNamespace);
        raw.subscribers := One(newUrl);
      } else if subs.One? {
        existed := CheckExist(newUrl, subs.url);
        if !existed {
          raw.subscribers := Many([subs.url, newUrl]);
        }
      } else {
        var list := subs.urls;
        var i := 0;
        while i < |list|
          invariant 0 <= i <= |list|
          invariant !existed
          invariant newUrl !in list[..i]
        {
          existed := CheckExist(newUrl, list[i]);
          if existed {
            break;
          }
          assert list[..i + 1] == list[..i] + [list[i]];
          i := i + 1;
        }
        if !existed {
          assert list[..i] == list;
          raw.subscribers := Many(list + [newUrl]);
        }
      }
      r := Ok(existed);
    }

    /** `_remove_subscriber`: validate the email, resolve it, and remove its
        URL from the representation in place; the result is the "was
        missing" flag. An invalid email is refused before the lookup. */
    method RemoveSubscriberFrom(email: PyValue, raw: RawData) returns (r: Result<bool>)
      modifies raw, rtc`lookups
      ensures !ValidEmail(email) ==>
        r == Err(BadValue) && raw.Value() == old(raw.Value()) && rtc.lookups == old(rtc.lookups)
      ensures ValidEmail(email) ==>
        && rtc.lookups == old(rtc.lookups) + [email.s]
        && r == Ok(RemoveFromDoc(old(raw.Value()), rtc.directory(email.s)).1)
        && raw.Value() == RemoveFromDoc(old(raw.Value()), rtc.directory(email.s)).0
    {
      if !ValidEmail(email) {
        return Err(BadValue);
      }
      var missing := true;
      var delUrl := rtc.OwnedBy(email.s);
      var subs := raw.subscribers;
      if subs.One? {
        missing := CheckMissing(delUrl, subs.url);
        if !missing {
          raw.subscribers := Absent;
        }
      } else if subs.Many? {
        var list := subs.urls;
        var i := 0;
        while i < |list|
          invariant 0 <= i <= |list|
          invariant missing
          invariant delUrl !in list[..i]
          invariant raw.Value() == old(raw.Value())
        {
          missing := CheckMissing(delUrl, list[i]);
          if !missing {
            var rest := list[..i] + list[i + 1..];
            RemoveFirstSpec(list, delUrl);
            if |rest| == 1 {
              raw.subscribers := One(rest[0]);
            } else {
              raw.subscribers := Many(rest);
            }
            break;
          }
          assert list[..i + 1] == list[..i] + [list[i]];
          i := i + 1;
        }
        if missing {
          assert list[..i] == list;
        }
      }
      r := Ok(missing);
    }

    /** `addSubscriber`: one GET; one PUT of the extended representation,
        conditioned on the GET's ETag, unless the subscriber was already
        there. */
    method AddSubscriber(email: PyValue) returns (r: Outcome)
      modifies rtc`gets, rtc`puts, rtc`doc, rtc`version, rtc`lookups
      ensures rtc.gets == old(rtc.gets) + [Get(SubscribersUrl(url), RdfHeaders(rtc.headers))]
      ensures !ValidEmail(email) ==>
        && r == Fail(BadValue) && rtc.lookups == old(rtc.lookups)
        && rtc.puts == old(rtc.puts) && rtc.doc == old(rtc.doc) && rtc.version == old(rtc.version)
      ensures ValidEmail(email) ==>
        var newUrl := rtc.directory(email.s);
        var d := AddToDoc(old(rtc.doc), newUrl).0;
        var present := newUrl in Members(old(rtc.doc).subscribers);
        && r == Pass
        && rtc.lookups == old(rtc.lookups) + [email.s]
        && rtc.doc == d
        && rtc.puts == old(rtc.puts) +
             (if present then [] else [Put(SubscribersUrl(url), WriteHeaders(rtc.headers, ETag(old(rtc.version))), d)])
        && rtc.version == old(rtc.version) + (if present then 0 else 1)
    {
      var headers, raw := PerformSubscribe();
      var added := AddSubscriberTo(email, raw);
      if added.Err? {
        return Fail(added.error);
      }
      if added.value {
        return Pass;
      }
      r := UpdateSubscribe(headers, raw);
    }

    /** `removeSubscriber`: one GET; one PUT of the reduced representation,
        conditioned on the GET's ETag, unless the subscriber was missing. */
    method RemoveSubscriber(email: PyValue) returns (r: Outcome)
      modifies rtc`gets, rtc`puts, rtc`doc, rtc`version, rtc`lookups
      ensures rtc.gets == old(rtc.gets) + [Get(SubscribersUrl(url), RdfHeaders(rtc.headers))]
      ensures !ValidEmail(email) ==>
        && r == Fail(BadValue) && rtc.lookups == old(rtc.lookups)
        && rtc.puts == old(rtc.puts) && rtc.doc == old(rtc.doc) && rtc.version == old(rtc.version)
      ensures ValidEmail(email) ==>
        var delUrl := rtc.directory(email.s);
        var d := RemoveFromDoc(old(rtc.doc), delUrl).0;
        var missing := delUrl !in Members(old(rtc.doc).subscribers);
        && r == Pass
        && rtc.lookups == old(rtc.lookups) + [email.s]
        && rtc.doc == d
        && rtc.puts == old(rtc.puts) +
             (if missing then [] else [Put(SubscribersUrl(url), WriteHeaders(rtc.headers, ETag(old(rtc.version))), d)])
        && rtc.version == old(rtc.version) + (if missing then 0 else 1)
    {
      var headers, raw := PerformSubscribe();
      var removed := RemoveSubscriberFrom(email, raw);
      if removed.Err? {
        return Fail(removed.error);
      }
      if removed.value {
        return Pass;
      }
      r := UpdateSubscribe(headers, raw);
    }

    /** The loop of `addSubscribers`: every email in order added to the
        representation in place, the "existed" flags folded with `and` from
        False, as the source starts them. The first invalid email stops the
        loop with BadValue. */
    method AddEach(emails: seq<PyValue>, raw: RawData) returns (r: Result<bool>)
      modifies raw, rtc`lookups
      ensures rtc.lookups == old(rtc.lookups) + Texts(emails[..FirstInvalid(emails)])
      ensures FirstInvalid(emails) < |emails| ==> r == Err(BadValue)
      ensures FirstInvalid(emails) == |emails| ==>
        var (d, flags) := AddAll(old(raw.Value()), Resolve(rtc.directory, emails));
        r == Ok(Aggregate(false, flags)) && raw.Value() == d
    {
      var existedFlags := false;
      ghost var d0 := raw.Value();
      var i := 0;
      while i < |emails|
        invariant 0 <= i <= |emails|
        invariant FirstInvalidFrom(emails, i) == FirstInvalid(emails)
        invariant raw.Value() == AddedUpTo(rtc.directory, d0, emails, i, false).0
        invariant existedFlags == AddedUpTo(rtc.directory, d0, emails, i, false).1
        invariant rtc.lookups == old(rtc.lookups) + Texts(emails[..i])
      {
        var added := AddSubscriberTo(emails[i], raw);
        if added.Err? {
          return Err(added.error);
        }
        var existed := added.value;
        existedFlags := existedFlags && existed;
        TextsSnoc(emails, i);
        i := i + 1;
      }
      assert emails[..i] == emails;
      AddedUpToIsAddAll(rtc.directory, d0, emails, i, false);
      r := Ok(existedFlags);
    }

    /** The loop of `removeSubscribers`: every email in order removed from
        the representation in place, the "missing" flags folded with `and`
        from True. The first invalid email stops the loop with BadValue. */
    method RemoveEach(emails: seq<PyValue>, raw: RawData) returns (r: Result<bool>)
      modifies raw, rtc`lookups
      ensures rtc.lookups == old(rtc.lookups) + Texts(emails[..FirstInvalid(emails)])
      ensures FirstInvalid(emails) < |emails| ==> r == Err(BadValue)
      ensures FirstInvalid(emails) == |emails| ==>
        var (d, flags) := RemoveAll(old(raw.Value()), Resolve(rtc.directory, emails));
        r == Ok(Aggregate(true, flags)) && raw.Value() == d
    {
      var missingFlags := true;
      ghost var d0 := raw.Value();
      var i := 0;
      while i < |emails|
        invariant 0 <= i <= |emails|
        invariant FirstInvalidFrom(emails, i) == FirstInvalid(emails)
        invariant raw.Value() == RemovedUpTo(rtc.directory, d0, emails, i, true).0
        invariant missingFlags == RemovedUpTo(rtc.directory, d0, emails, i, true).1
        invariant rtc.lookups == old(rtc.lookups) + Texts(emails[..i])
      {
        var removed := RemoveSubscriberFrom(emails[i], raw);
        if removed.Err? {
          return Err(removed.error);
        }
        var missing := removed.value;
        missingFlags := missingFlags && missing;
        TextsSnoc(emails, i);
        i := i + 1;
      }
      assert emails[..i] == emails;
      RemovedUpToIsRemoveAll(rtc.directory, d0, emails, i, true);
      r := Ok(missingFlags);
    }

    /** `addSubscribers`: a non-iterable argument is refused before any
        request; otherwise one GET, every email in order, and, unless an
        email is invalid, one PUT. The accumulated "existed" flag starts at
        False, so the early return that would skip the PUT is never taken,
        even when every email was already subscribed
        (AsWrittenAddAggregateNeverSkips). */
    method AddSubscribers(emails: Option<seq<PyValue>>) returns (r: Outcome)
      modifies rtc`gets, rtc`puts, rtc`doc, rtc`version, rtc`lookups
      ensures emails.None? ==>
        && r == Fail(BadValue) && rtc.gets == old(rtc.gets) && rtc.lookups == old(rtc.lookups)
        && rtc.puts == old(rtc.puts) && rtc.doc == old(rtc.doc) && rtc.version == old(rtc.version)
      ensures emails.Some? ==>
        var es := emails.value;
        && rtc.gets == old(rtc.gets) + [Get(SubscribersUrl(url), RdfHeaders(rtc.headers))]
        && rtc.lookups == old(rtc.lookups) + Texts(es[..FirstInvalid(es)])
      ensures emails.Some? && FirstInvalid(emails.value) < |emails.value| ==>
        && r == Fail(BadValue)
        && rtc.puts == old(rtc.puts) && rtc.doc == old(rtc.doc) && rtc.version == old(rtc.version)
      ensures emails.Some? && FirstInvalid(emails.value) == |emails.value| ==>
        var d := AddAll(old(rtc.doc), Resolve(rtc.directory, emails.value)).0;
        && r == Pass && rtc.doc == d
        && rtc.version == old(rtc.version) + 1
        && rtc.puts == old(rtc.puts) + [Put(SubscribersUrl(url), WriteHeaders(rtc.headers, ETag(old(rtc.version))), d)]
    {
      if emails.None? {
        return Fail(BadValue);
      }
      var headers, raw := PerformSubscribe();
      ghost var urls := Resolve(rtc.directory, emails.value);
      var existedFlags := AddEach(emails.value, raw);
      if existedFlags.Err? {
        return Fail(existedFlags.error);
      }
      AsWrittenAddAggregateNeverSkips(AddAll(old(rtc.doc), urls).1);
      if existedFlags.value {
        assert false;
        return Pass;
      }
      r := UpdateSubscribe(headers, raw);
    }

    /** `removeSubscribers`: a non-iterable argument is refused before any
        request; otherwise one GET, every email in order, and, unless an
        email is invalid, one PUT exactly when some email was subscribed. */
    method RemoveSubscribers(emails: Option<seq<PyValue>>) returns (r: Outcome)
      modifies rtc`gets, rtc`puts, rtc`doc, rtc`version, rtc`lookups
      ensures emails.None? ==>
        && r == Fail(BadValue) && rtc.gets == old(rtc.gets) && rtc.lookups == old(rtc.lookups)
        && rtc.puts == old(rtc.puts) && rtc.doc == old(rtc.doc) && rtc.version == old(rtc.version)
      ensures emails.Some? ==>
        var es := emails.value;
        && rtc.gets == old(rtc.gets) + [Get(SubscribersUrl(url), RdfHeaders(rtc.headers))]
        && rtc.lookups == old(rtc.lookups) + Texts(es[..FirstInvalid(es)])
      ensures emails.Some? && FirstInvalid(emails.value) < |emails.value| ==>
        && r == Fail(BadValue)
        && rtc.puts == old(rtc.puts) && rtc.doc == old(rtc.doc) && rtc.version == old(rtc.version)
      ensures emails.Some? && FirstInvalid(emails.value) == |emails.value| ==>
        var urls := Resolve(rtc.directory, emails.value);
        var d := RemoveAll(old(rtc.doc), urls).0;
        var allMissing := NoneIn(urls, Members(old(rtc.doc).subscribers));
        && r == Pass && rtc.doc == d
        && rtc.version == old(rtc.version) + (if allMissing then 0 else 1)
        && rtc.puts == old(rtc.puts) +
             (if allMissing then [] else [Put(SubscribersUrl(url), WriteHeaders(rtc.headers, ETag(old(rtc.version))), d)])
    {
      if emails.None? {
        return Fail(BadValue);
      }
      var headers, raw := PerformSubscribe();
      ghost var urls := Resolve(rtc.directory, emails.value);
      var missingFlags := RemoveEach(emails.value, raw);
      if missingFlags.Err? {
        return Fail(missingFlags.error);
      }
      AggregateSkipsIffAllNoOp(RemoveAll(old(rtc.doc), urls).1);
      RemoveAllMissingIff(old(rtc.doc), urls);
      if missingFlags.value {
        RemoveAllNoOp(old(rtc.doc), urls);
        return Pass;
      }
      r := UpdateSubscribe(headers, raw);
    }

    // -------------------------------------------------------------------------
    // Comments
    // -------------------------------------------------------------------------

    /** `addComment`: one GET of the comment collection, whose total count is
        the new comment's id; one POST of the comment, conditioned on the
        GET's ETag. The message goes into the payload unescaped. The new
        comment is the last of the collection and its URL ends in its id. */
    method AddComment(msg: string) returns (r: Result<Comment>)
      modifies rtc`gets, rtc`posts, rtc`comments, rtc`commentsVersion
      ensures rtc.gets == old(rtc.gets) + [Get(CommentsUrl(url), rtc.headers)]
      ensures var n := |old(rtc.comments)|;
        && r == Ok(Comment(CommentUrl(url, n), msg))
        && rtc.comments == old(rtc.comments) + [msg]
        && rtc.posts == old(rtc.posts) +
             [Post(CommentsUrl(url) + "/oslc:comment",
                   WriteHeaders(rtc.headers, ETag(old(rtc.commentsVersion))),
                   CommentPayload(CommentUrl(url, n), msg))]
        && rtc.commentsVersion == old(rtc.commentsVersion) + 1
    {
      var commentsUrl := CommentsUrl(url);
      var headers := rtc.headers;
      var totalCnt, etag := rtc.GetComments(Get(commentsUrl, headers));
      var commentUrl := commentsUrl + "/" + totalCnt;
      var payload := CommentPayload(commentUrl, msg);
      headers := headers["Content-Type" := OslcCrRdf];
      headers := headers["Accept" := OslcCrRdf];
      headers := headers["OSLC-Core-Version" := "2.0"];
      headers := headers["If-Match" := etag];
      var reqUrl := commentsUrl + "/oslc:comment";
      var status, created := rtc.PostComment(Post(reqUrl, headers, payload));
      if !IsSuccess(status) {
        return Err(HttpError(status));
      }
      r := Ok(Comment(commentUrl, created));
    }

    /** `getCommentByID`: an invalid id is refused before any request;
        otherwise one GET of the comment's URL. A comment the service does
        not have is reported as BadValue. */
    method GetCommentByID(commentId: PyValue) returns (r: Result<Comment>)
      modifies rtc`gets
      ensures CommentId(commentId).Err? ==> r == Err(BadValue) && rtc.gets == old(rtc.gets)
      ensures CommentId(commentId).Ok? ==>
        var id := CommentId(commentId).value;
        && rtc.gets == old(rtc.gets) + [Get(CommentUrl(url, id), rtc.headers)]
        && r == if 0 <= id < |rtc.comments| then Ok(Comment(CommentUrl(url, id), rtc.comments[id])) else Err(BadValue)
    {
      var checked := CommentId(commentId);
      if checked.Err? {
        return Err(BadValue);
      }
      var id := checked.value;
      var commentUrl := CommentUrl(url, id);
      LastSegmentAfterSlash(CommentsUrl(url), Decimal(id));
      DecimalRoundTrip(id);
      var status, text := rtc.GetComment(Get(commentUrl, rtc.headers));
      if !IsSuccess(status) {
        return Err(BadValue);
      }
      r := Ok(Comment(commentUrl, text));
    }

    // -------------------------------------------------------------------------
    // Actions
    // -------------------------------------------------------------------------

    /** `getAction`: a name that is not a non-empty str is refused; otherwise
        the actions of the workflow are fetched and the first one whose title
        equals the name is returned, NotFound when there is none. */
    method GetAction(actionName: PyValue) returns (r: Result<Action>)
      ensures !(actionName.PyStr? && actionName.s != "") ==> r == Err(BadValue)
      ensures actionName.PyStr? && actionName.s != "" && ActionsQuery(stateUrl, contextId).Err? ==>
        r == Err(ActionsQuery(stateUrl, contextId).error)
      ensures actionName.PyStr? && actionName.s != "" && ActionsQuery(stateUrl, contextId).Ok? ==>
        var actions := rtc.pagedActions(ActionsQuery(stateUrl, contextId).value);
        && (r.Ok? ==>
              && actions.Some?
              && exists i :: 0 <= i < |actions.value| && actions.value[i] == r.value &&
                   r.value.title == actionName.s && NoneTitledBefore(actions.value, actionName.s, i))
        && (r.Err? ==> r.error == NotFound)
        && (r.Err? <==> actions.None? || NoneTitledBefore(actions.value, actionName.s, |actions.value|))
    {
      if !(actionName.PyStr? && actionName.s != "") {
        return Err(BadValue);
      }
      var name := actionName.s;
      var query := ActionsQuery(stateUrl, contextId);
      if query.Err? {
        return Err(query.error);
      }
      var actions := rtc.pagedActions(query.value);
      if actions.Some? {
        var acts := actions.value;
        var i := 0;
        while i < |acts|
          invariant 0 <= i <= |acts|
          invariant NoneTitledBefore(acts, name, i)
        {
          if acts[i].title == name {
            return Ok(acts[i]);
          }
          i := i + 1;
        }
      }
      r := Err(NotFound);
    }
  }

  /** The state of the `addSubscribers` loop after its first `i` emails,
      all valid: the representation and the accumulated flag. */
  function AddedUpTo(directory: string -> Url, d0: Doc, emails: seq<PyValue>, i: nat, init: bool): (Doc, bool)
    requires i <= |emails|
    decreases i
  {
    if i == 0 then (d0, init)
    else
      var (d, acc) := AddedUpTo(directory, d0, emails, i - 1, init);
      var (d', f) := AddToDoc(d, directory(EmailText(emails[i - 1])));
      (d', acc && f)
  }

  /** The state of the `removeSubscribers` loop after its first `i` emails. */
  function RemovedUpTo(directory: string -> Url, d0: Doc, emails: seq<PyValue>, i: nat, init: bool): (Doc, bool)
    requires i <= |emails|
    decreases i
  {
    if i == 0 then (d0, init)
    else
      var (d, acc) := RemovedUpTo(directory, d0, emails, i - 1, init);
      var (d', f) := RemoveFromDoc(d, directory(EmailText(emails[i - 1])));
      (d', acc && f)
  }

  lemma TextsSnoc(emails: seq<PyValue>, i: nat)
    requires i < |emails|
    ensures Texts(emails[..i + 1]) == Texts(emails[..i]) + [EmailText(emails[i])]
  {
    assert emails[..i + 1][..i] == emails[..i];
  }

  lemma ResolveSnoc(directory: string -> Url, emails: seq<PyValue>, i: nat)
    requires i < |emails|
    ensures Resolve(directory, emails[..i + 1]) == Resolve(directory, emails[..i]) + [directory(EmailText(emails[i]))]
  {
    assert emails[..i + 1][..i] == emails[..i];
  }

  /** The `addSubscribers` loop, turn by turn, is the batch fold `AddAll` of
      the resolved URLs with its flags folded by `Aggregate`. */
  lemma {:induction false} AddedUpToIsAddAll(directory: string -> Url, d0: Doc, emails: seq<PyValue>, i: nat, init: bool)
    requires i <= |emails|
    ensures AddedUpTo(directory, d0, emails, i, init).0 == AddAll(d0, Resolve(directory, emails[..i])).0
    ensures AddedUpTo(directory, d0, emails, i, init).1 == Aggregate(init, AddAll(d0, Resolve(directory, emails[..i])).1)
    decreases i
  {
    if i > 0 {
      AddedUpToIsAddAll(directory, d0, emails, i - 1, init);
      var before := Resolve(directory, emails[..i - 1]);
      var url := directory(EmailText(emails[i - 1]));
      var prev := AddAll(d0, before);
      var step := AddToDoc(prev.0, url);
      ResolveSnoc(directory, emails, i - 1);
      assert Resolve(directory, emails[..i]) == before + [url];
      AddAllSnoc(d0, before, url);
      AggregateSnoc(init, prev.1, step.1);
      assert AddedUpTo(directory, d0, emails, i, init) == (step.0, AddedUpTo(directory, d0, emails, i - 1, init).1 && step.1);
    }
  }

  /** The `removeSubscribers` loop is the batch fold `RemoveAll`. */
  lemma {:induction false} RemovedUpToIsRemoveAll(directory: string -> Url, d0: Doc, emails: seq<PyValue>, i: nat, init: bool)
    requires i <= |emails|
    ensures RemovedUpTo(directory, d0, emails, i, init).0 == RemoveAll(d0, Resolve(directory, emails[..i])).0
    ensures RemovedUpTo(directory, d0, emails, i, init).1 == Aggregate(init, RemoveAll(d0, Resolve(directory, emails[..i])).1)
    decreases i
  {
    if i > 0 {
      RemovedUpToIsRemoveAll(directory, d0, emails, i - 1, init);
      var before := Resolve(directory, emails[..i - 1]);
      var url := directory(EmailText(emails[i - 1]));
      var prev := RemoveAll(d0, before);
      var step := RemoveFromDoc(prev.0, url);
      ResolveSnoc(directory, emails, i - 1);
      assert Resolve(directory, emails[..i]) == before + [url];
      RemoveAllSnoc(d0, before, url);
      AggregateSnoc(init, prev.1, step.1);
      assert RemovedUpTo(directory, d0, emails, i, init) == (step.0, RemovedUpTo(directory, d0, emails, i - 1, init).1 && step.1);
    }
  }
}
