/** A stand-in for the remote change-management service and the client
    object (`rtc_obj`) through which a work item reaches it. It holds one work
    item's subscriber representation and comment collection, versions each of
    them with an ETag, honours `If-Match` on writes, and logs every request so
    that callers can state how many reads and writes an operation made. */
module RtcServer {
  import opened Base
  import opened PyText
  import opened Subscribers

  datatype Get = Get(url: string, headers: Headers)
  datatype Put = Put(url: string, headers: Headers, body: Doc)

  /** The RDF fragment `addComment` posts: the new comment's `rdf:about` URL
      and the text of its `dcterms:description`. */
  datatype CommentPayload = CommentPayload(about: string, description: string)
  datatype Post = Post(url: string, headers: Headers, body: CommentPayload)

  /** An action of the work item's workflow, as the paged fetch returns it. */
  datatype Action = Action(title: string, url: string)

  /** The arguments of the client's paged fetch. */
  datatype PagedQuery = PagedQuery(kind: string, projectAreaId: string, customizedAttr: string, pageSize: string)

  /** The ETag the service sends for a resource at a given version. */
  function ETag(version: nat): string
  {
    Decimal(version)
  }

  predicate IfMatches(h: Headers, version: nat)
  {
    "If-Match" in h && h["If-Match"] == ETag(version)
  }

  predicate IsSuccess(status: nat)
  {
    200 <= status < 300
  }

  /** The comment a URL names: its last path segment read as a number. */
  function CommentIndex(url: string): Option<int>
  {
    ParseInt(LastSegment(url))
  }

  class Server {
    /** The client's session headers (`rtc_obj.headers`). */
    const headers: Headers
    /** The person directory: the resource URL of the person with an email
        (`rtc_obj.getOwnedBy(email).url`). */
    const directory: string -> Url
    /** The client's paged fetch of actions (`rtc_obj._get_paged_resources`). */
    const pagedActions: PagedQuery -> Option<seq<Action>>

    var doc: Doc
    var version: nat
    var comments: seq<string>
    var commentsVersion: nat

    var gets: seq<Get>
    var puts: seq<Put>
    var posts: seq<Post>
    var lookups: seq<string>

    constructor (headers: Headers, directory: string -> Url,
                 pagedActions: PagedQuery -> Option<seq<Action>>,
                 doc: Doc, comments: seq<string>)
      ensures this.headers == headers && this.directory == directory
      ensures this.pagedActions == pagedActions
      ensures this.doc == doc && this.comments == comments
      ensures version == 0 && commentsVersion == 0
      ensures gets == [] && puts == [] && posts == [] && lookups == []
    {
      this.headers := headers;
      this.directory := directory;
      this.pagedActions := pagedActions;
      this.doc := doc;
      this.comments := comments;
      version, commentsVersion := 0, 0;
      gets, puts, posts, lookups := [], [], [], [];
    }

    /** Person lookup by email. */
    method OwnedBy(email: string) returns (url: Url)
      modifies this`lookups
      ensures lookups == old(lookups) + [email]
      ensures url == directory(email)
    {
      lookups := lookups + [email];
      url := directory(email);
    }

    /** GET of the subscriber-scoped representation: its body and ETag. */
    method GetSubscribers(req: Get) returns (body: Doc, etag: string)
      modifies this`gets
      ensures gets == old(gets) + [req]
      ensures body == doc && etag == ETag(version)
    {
      gets := gets + [req];
      body, etag := doc, ETag(version);
    }

    /** Conditional PUT of the subscriber representation. */
    method PutSubscribers(req: Put) returns (status: nat)
      modifies this`puts, this`doc, this`version
      ensures puts == old(puts) + [req]
      ensures IfMatches(req.headers, old(version)) ==>
        status == 200 && doc == req.body && version == old(version) + 1
      ensures !IfMatches(req.headers, old(version)) ==>
        status == 412 && doc == old(doc) && version == old(version)
    {
      puts := puts + [req];
      if IfMatches(req.headers, version) {
        doc, version := req.body, version + 1;
        status := 200;
      } else {
        status := 412;
      }
    }

    /** GET of the comment collection: its `oslc_cm:totalCount` attribute and ETag. */
    method GetComments(req: Get) returns (totalCount: string, etag: string)
      modifies this`gets
      ensures gets == old(gets) + [req]
      ensures totalCount == Decimal(|comments|) && etag == ETag(commentsVersion)
    {
      gets := gets + [req];
      totalCount, etag := Decimal(|comments|), ETag(commentsVersion);
    }

    /** Conditional POST of a new comment, appended at the end of the collection. */
    method PostComment(req: Post) returns (status: nat, description: string)
      modifies this`posts, this`comments, this`commentsVersion
      ensures posts == old(posts) + [req]
      ensures IfMatches(req.headers, old(commentsVersion)) ==>
        && status == 201 && description == req.body.description
        && comments == old(comments) + [req.body.description]
        && commentsVersion == old(commentsVersion) + 1
      ensures !IfMatches(req.headers, old(commentsVersion)) ==>
        status == 412 && comments == old(comments) && commentsVersion == old(commentsVersion)
    {
      posts := posts + [req];
      description := "";
      if IfMatches(req.headers, commentsVersion) {
        comments := comments + [req.body.description];
        commentsVersion := commentsVersion + 1;
        status, description := 201, req.body.description;
      } else {
        status := 412;
      }
    }

    /** GET of one comment. */
    method GetComment(req: Get) returns (status: nat, description: string)
      modifies this`gets
      ensures gets == old(gets) + [req]
      ensures var i := CommentIndex(req.url);
        if i.Some? && 0 <= i.value < |comments|
        then status == 200 && description == comments[i.value]
        else status == 404
    {
      gets := gets + [req];
      var i := CommentIndex(req.url);
      if i.Some? && 0 <= i.value < |comments| {
        status, description := 200, comments[i.value];
      } else {
        status, description := 404, "";
      }
    }
  }
}
