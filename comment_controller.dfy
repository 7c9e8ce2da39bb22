/** The comment request handlers of the backend: a store of comment
    documents, the queries that read it and the handlers that change it. */
module CommentController {
  import opened Domain
  import opened Seqs

  const TextMissing: string := "Comment text is missing"
  const CompanyMissing: string := "Company name is missing, login again."
  const CreateFailed: string := "Failed to create comment"
  const ReplyTextMissing: string := "Please add text to your reply"
  const CommentNotFound: string := "Comment not found"
  const MarkedReadMessage: string := "Comment marked as read"
  const AdminRepliesReadMessage: string := "Admin replies marked as read"
  const CommentAdminRepliesReadMessage: string := "Admin replies marked as read for this comment"

  /** The role string `req.user.role` has for administrators. */
  const AdminRole: string := "admin"

  /** Some reply was written by an admin and is still unread. */
  ghost predicate HasUnreadAdminReply(c: Comment) {
    exists i :: 0 <= i < |c.replies| && c.replies[i].isAdminReply && c.replies[i].isNew
  }

  /** What every stored comment satisfies: creation and `addReply` validate
      the text and the subdomain, replies copy the parent's subdomain, and an
      unread admin reply is always announced by `hasUnreadAdminReply`. */
  ghost predicate WellFormed(c: Comment) {
    && ValidSubdomain(c.subdomain)
    && c.text != ""
    && (forall i :: 0 <= i < |c.replies| ==> c.replies[i].text != "" && c.replies[i].subdomain == c.subdomain)
    && (HasUnreadAdminReply(c) ==> c.hasUnreadAdminReply)
  }

  /** Sorted by `createdAt`, newest first (`.sort({ createdAt: -1 })`). */
  predicate NewestFirst(cs: seq<Comment>) {
    forall i, j :: 0 <= i < j < |cs| ==> cs[i].createdAt >= cs[j].createdAt
  }

  function NewestFirstKey(c: Comment): int {
    -c.createdAt
  }

  function SortNewestFirst(cs: seq<Comment>): (r: seq<Comment>)
    ensures NewestFirst(r)
    ensures multiset(r) == multiset(cs)
    ensures |r| == |cs|
    ensures forall c :: c in r <==> c in cs
    ensures forall i :: 0 <= i < |r| ==> r[i] in cs
  {
    var r := SortBy(cs, NewestFirstKey);
    assert forall c :: c in r <==> c in multiset(r);
    r
  }

  /** `Comment.findById`: the position of the comment with this id. */
  function IndexOf(cs: seq<Comment>, id: Id): (r: Option<nat>)
    ensures r.Some? ==> r.value < |cs| && cs[r.value].id == id
    ensures r.None? <==> forall i :: 0 <= i < |cs| ==> cs[i].id != id
  {
    if cs == [] then None
    else if cs[0].id == id then Some(0)
    else
      match IndexOf(cs[1..], id)
      case None => None
      case Some(k) => Some(k + 1)
  }

  /** `populate('worker')`: the referenced worker with its selected fields,
      or None (`null`) when the reference is null or dangling. */
  function Resolve(ref: Option<Id>, directory: map<Id, Profile>): Option<Author> {
    if ref.Some? && ref.value in directory then
      Some(Known(Worker(ref.value, directory[ref.value].name, directory[ref.value].department)))
    else None
  }

  function Populate(c: Comment, directory: map<Id, Profile>): PopulatedComment {
    PopulatedComment(c, Resolve(c.worker, directory))
  }

  /** Populates each comment in turn; with `fallback` an unresolved worker
      becomes the placeholder instead of null. */
  function PopulateAll(cs: seq<Comment>, directory: map<Id, Profile>, fallback: bool): (r: seq<PopulatedComment>)
    ensures Documents(r) == cs
    ensures forall i :: 0 <= i < |r| ==>
      r[i].worker == if fallback && Resolve(cs[i].worker, directory).None? then Some(Placeholder)
                     else Resolve(cs[i].worker, directory)
  {
    var r := seq(|cs|, i requires 0 <= i < |cs| =>
      var author := Resolve(cs[i].worker, directory);
      PopulatedComment(cs[i], if fallback && author.None? then Some(Placeholder) else author));
    assert Documents(r) == cs;
    r
  }

  /** The stored comments behind a response. */
  function Documents(ps: seq<PopulatedComment>): (cs: seq<Comment>)
    ensures |cs| == |ps|
    ensures forall i :: 0 <= i < |ps| ==> cs[i] == ps[i].comment
  {
    seq(|ps|, i requires 0 <= i < |ps| => ps[i].comment)
  }

  /** `addReply` on one comment: the reply appended, the role flags set. */
  function WithReply(c: Comment, text: string, role: string, now: Timestamp): (r: Comment)
    ensures |r.replies| == |c.replies| + 1 && r.replies[..|c.replies|] == c.replies
    ensures r.replies[|c.replies|] == Reply(text, role == AdminRole, true, c.subdomain, now)
    ensures r.isNew
    ensures role == AdminRole ==> r.hasUnreadAdminReply && r.lastReplyTimestamp == Some(now)
    ensures role != AdminRole ==>
      r.hasUnreadAdminReply == c.hasUnreadAdminReply && r.lastReplyTimestamp == c.lastReplyTimestamp
    ensures r.id == c.id && r.worker == c.worker && r.subdomain == c.subdomain
    ensures r.text == c.text && r.createdAt == c.createdAt
  {
    var reply := Reply(text, role == AdminRole, true, c.subdomain, now);
    var appended := c.(replies := c.replies + [reply], isNew := true);
    if role == AdminRole then appended.(hasUnreadAdminReply := true, lastReplyTimestamp := Some(now))
    else appended
  }

  /** `markCommentAsRead` on one comment: the comment and every reply read,
      nothing else changed. */
  function MarkedRead(c: Comment): (r: Comment)
    ensures !r.isNew && |r.replies| == |c.replies|
    ensures forall i :: 0 <= i < |r.replies| ==> !r.replies[i].isNew
    ensures forall i :: 0 <= i < |r.replies| ==> r.replies[i] == c.replies[i].(isNew := false)
    ensures r == c.(isNew := false, replies := r.replies)
  {
    c.(isNew := false, replies := seq(|c.replies|, i requires 0 <= i < |c.replies| => c.replies[i].(isNew := false)))
  }

  /** The reply update both admin-reply handlers perform. */
  function AdminReplyRead(reply: Reply): Reply {
    if reply.isAdminReply then reply.(isNew := false) else reply
  }

  /** Admin replies read and the notification flag cleared; worker replies
      and every other field untouched. */
  function AdminRepliesRead(c: Comment): (r: Comment)
    ensures !r.hasUnreadAdminReply && |r.replies| == |c.replies|
    ensures forall i :: 0 <= i < |r.replies| && c.replies[i].isAdminReply ==> !r.replies[i].isNew
    ensures forall i :: 0 <= i < |r.replies| && !c.replies[i].isAdminReply ==> r.replies[i] == c.replies[i]
    ensures forall i :: 0 <= i < |r.replies| ==> r.replies[i] == c.replies[i].(isNew := r.replies[i].isNew)
    ensures r == c.(hasUnreadAdminReply := false, replies := r.replies)
  {
    c.(hasUnreadAdminReply := false, replies := seq(|c.replies|, i requires 0 <= i < |c.replies| => AdminReplyRead(c.replies[i])))
  }

  /** The comments `markAdminRepliesAsRead` selects for `caller`. */
  predicate OwnUnread(c: Comment, caller: Id) {
    c.worker == Some(caller) && c.hasUnreadAdminReply
  }

  lemma MarkedReadIdempotent(c: Comment)
    ensures MarkedRead(MarkedRead(c)) == MarkedRead(c)
  {
    assert MarkedRead(MarkedRead(c)).replies == MarkedRead(c).replies;
  }

  lemma AdminRepliesReadIdempotent(c: Comment)
    ensures AdminRepliesRead(AdminRepliesRead(c)) == AdminRepliesRead(c)
  {
    assert AdminRepliesRead(AdminRepliesRead(c)).replies == AdminRepliesRead(c).replies;
  }

  /** Every handler keeps a stored comment well-formed. */
  lemma HandlersPreserveWellFormed(c: Comment, text: string, role: string, now: Timestamp)
    requires WellFormed(c)
    ensures text != "" ==> WellFormed(WithReply(c, text, role, now))
    ensures WellFormed(MarkedRead(c))
    ensures WellFormed(AdminRepliesRead(c))
  {
    if text != "" {
      var r := WithReply(c, text, role, now);
      if HasUnreadAdminReply(r) {
        var i :| 0 <= i < |r.replies| && r.replies[i].isAdminReply && r.replies[i].isNew;
        if i < |c.replies| {
          assert r.replies[i] == r.replies[..|c.replies|][i] == c.replies[i];
        }
      }
      assert forall i :: 0 <= i < |c.replies| ==> r.replies[i] == r.replies[..|c.replies|][i];
    }
  }

  /** After reading the admin replies of a comment none of them is unread. */
  lemma AdminRepliesReadClearsUnread(c: Comment)
    ensures !HasUnreadAdminReply(AdminRepliesRead(c))
    ensures !HasUnreadAdminReply(MarkedRead(c))
  {
  }

  /** `markCommentAsRead` clears every reply's `isNew` but leaves
      `hasUnreadAdminReply` as it was, so the flag can outlive the replies
      it announced: a comment with one unread admin reply shows it. */
  lemma MarkedReadLeavesFlag()
    ensures var c := Comment(0, Some(1), "acme", "Need help", false, true, Some(5),
                             [Reply("On it", true, true, "acme", 5)], 1);
      WellFormed(c) && MarkedRead(c).hasUnreadAdminReply && !HasUnreadAdminReply(MarkedRead(c))
  {
    var c := Comment(0, Some(1), "acme", "Need help", false, true, Some(5),
                     [Reply("On it", true, true, "acme", 5)], 1);
    assert c.replies[0].isAdminReply && c.replies[0].isNew;
  }

  class CommentStore {
    var comments: seq<Comment>
    /** The id the next created comment receives (Mongo generates ObjectIds). */
    var nextId: Id

    ghost predicate Valid()
      reads this
    {
      && (forall i :: 0 <= i < |comments| ==> comments[i].id < nextId)
      && (forall i, j :: 0 <= i < j < |comments| ==> comments[i].id != comments[j].id)
      && (forall i :: 0 <= i < |comments| ==> WellFormed(comments[i]))
    }

    constructor ()
      ensures Valid() && comments == [] && nextId == 0
    {
      comments := [];
      nextId := 0;
    }

    /** `getWorkerComments`: exactly the comments of `workerId`, newest first. */
    function WorkerComments(workerId: Id): (r: seq<Comment>)
      reads this
      ensures forall c :: c in r <==> c in comments && c.worker == Some(workerId)
      ensures |r| == Count(comments, (c: Comment) => c.worker == Some(workerId))
      ensures forall c :: multiset(r)[c] == if c.worker == Some(workerId) then multiset(comments)[c] else 0
      ensures NewestFirst(r)
    {
      SortNewestFirst(Filter(comments, (c: Comment) => c.worker == Some(workerId)))
    }

    /** `getMyComments`: the caller's comments, newest first, each with its
        worker populated (null when the worker no longer exists). */
    function MyComments(caller: Id, directory: map<Id, Profile>): (r: seq<PopulatedComment>)
      reads this
      ensures forall c :: c in Documents(r) <==> c in comments && c.worker == Some(caller)
      ensures |r| == Count(comments, (c: Comment) => c.worker == Some(caller))
      ensures forall c :: multiset(Documents(r))[c] == if c.worker == Some(caller) then multiset(comments)[c] else 0
      ensures NewestFirst(Documents(r))
      ensures forall i :: 0 <= i < |r| ==> r[i].worker == Resolve(Some(caller), directory)
    {
      var sorted := SortNewestFirst(Filter(comments, (c: Comment) => c.worker == Some(caller)));
      PopulateAll(sorted, directory, false)
    }

    /** `getAllComments`: rejects a missing or "main" subdomain; otherwise the
        comments of that tenant, newest first, with a placeholder worker where
        the reference does not resolve. */
    function AllComments(subdomain: string, directory: map<Id, Profile>): (r: Result<seq<PopulatedComment>>)
      reads this
      ensures r.Err? <==> !ValidSubdomain(subdomain)
      ensures r.Err? ==> r.error == BadRequest(CompanyMissing)
      ensures r.Ok? ==> forall c :: c in Documents(r.value) <==> c in comments && c.subdomain == subdomain
      ensures r.Ok? ==> |r.value| == Count(comments, (c: Comment) => c.subdomain == subdomain)
      ensures r.Ok? ==> forall c ::
        multiset(Documents(r.value))[c] == if c.subdomain == subdomain then multiset(comments)[c] else 0
      ensures r.Ok? ==> NewestFirst(Documents(r.value))
      ensures r.Ok? ==> forall i :: 0 <= i < |r.value| ==>
        var p := r.value[i];
        && p.worker.Some?
        && (p.worker.value.Placeholder? <==> Resolve(p.comment.worker, directory).None?)
        && (p.worker.value.Known? ==> p.worker == Resolve(p.comment.worker, directory))
    {
      if !ValidSubdomain(subdomain) then Err(BadRequest(CompanyMissing))
      else Ok(PopulateAll(SortNewestFirst(Filter(comments, (c: Comment) => c.subdomain == subdomain)), directory, true))
    }

    /** `getUnreadAdminReplies`: the caller's comments whose flag is set. */
    function UnreadAdminReplies(caller: Id): (r: seq<Comment>)
      reads this
      ensures forall c :: c in r <==> c in comments && OwnUnread(c, caller)
      ensures |r| == Count(comments, (c: Comment) => OwnUnread(c, caller))
      ensures forall c :: multiset(r)[c] == if OwnUnread(c, caller) then multiset(comments)[c] else 0
      ensures SubsequenceOf(r, comments)
    {
      var own := (c: Comment) => OwnUnread(c, caller);
      FilterSubsequence(comments, own);
      Filter(comments, own)
    }

    /** `createComment`: validates the text first, then the subdomain; on
        success stores one new unread comment of the caller without replies. */
    method CreateComment(caller: Id, text: string, subdomain: string, now: Timestamp,
                         saveFails: bool, directory: map<Id, Profile>)
      returns (r: Result<PopulatedComment>)
      requires Valid()
      modifies this
      ensures Valid()
      ensures text == "" ==> r == Err(BadRequest(TextMissing))
      ensures text != "" && !ValidSubdomain(subdomain) ==> r == Err(BadRequest(CompanyMissing))
      ensures text != "" && ValidSubdomain(subdomain) && saveFails ==> r == Err(Internal(CreateFailed))
      ensures r.Err? ==> comments == old(comments) && nextId == old(nextId)
      ensures r.Ok? <==> text != "" && ValidSubdomain(subdomain) && !saveFails
      ensures r.Ok? ==>
        && r.value.comment == Comment(old(nextId), Some(caller), subdomain, text, true, false, None, [], now)
        && r.value.worker == Resolve(Some(caller), directory)
        && comments == old(comments) + [r.value.comment]
        && r.value.comment.id !in set c | c in old(comments) :: c.id
    {
      if text == "" {
        return Err(BadRequest(TextMissing));
      }
      if !ValidSubdomain(subdomain) {
        return Err(BadRequest(CompanyMissing));
      }
      if saveFails {
        return Err(Internal(CreateFailed));
      }
      var c := Comment(nextId, Some(caller), subdomain, text, true, false, None, [], now);
      comments := comments + [c];
      nextId := nextId + 1;
      r := Ok(Populate(c, directory));
    }

    /** `addReply`: empty text is rejected before the lookup, an unknown id
        with 404; otherwise the reply is appended to that comment alone. */
    method AddReply(id: Id, text: string, role: string, now: Timestamp, directory: map<Id, Profile>)
      returns (r: Result<PopulatedComment>)
      requires Valid()
      modifies this
      ensures Valid() && nextId == old(nextId)
      ensures text == "" ==> r == Err(BadRequest(ReplyTextMissing))
      ensures text != "" && IndexOf(old(comments), id).None? ==> r == Err(NotFound(CommentNotFound))
      ensures r.Err? ==> comments == old(comments)
      ensures r.Ok? <==> text != "" && IndexOf(old(comments), id).Some?
      ensures r.Ok? ==>
        var k := IndexOf(old(comments), id).value;
        && comments == old(comments)[k := WithReply(old(comments)[k], text, role, now)]
        && r.value == Populate(comments[k], directory)
    {
      if text == "" {
        return Err(BadRequest(ReplyTextMissing));
      }
      var found := IndexOf(comments, id);
      if found.None? {
        return Err(NotFound(CommentNotFound));
      }
      var k := found.value;
      var c := comments[k];
      HandlersPreserveWellFormed(c, text, role, now);
      var reply := Reply(text, role == AdminRole, true, c.subdomain, now);
      c := c.(replies := c.replies + [reply]);
      if role == AdminRole {
        c := c.(hasUnreadAdminReply := true, lastReplyTimestamp := Some(now));
      }
      c := c.(isNew := true);
      comments := comments[k := c];
      r := Ok(Populate(c, directory));
    }

    /** `markCommentAsRead`: 404 for an unknown id; otherwise the comment and
        each of its replies become read. */
    method MarkCommentAsRead(id: Id) returns (r: Result<string>)
      requires Valid()
      modifies this
      ensures Valid() && nextId == old(nextId)
      ensures IndexOf(old(comments), id).None? ==> r == Err(NotFound(CommentNotFound)) && comments == old(comments)
      ensures IndexOf(old(comments), id).Some? ==>
        var k := IndexOf(old(comments), id).value;
        r == Ok(MarkedReadMessage) && comments == old(comments)[k := MarkedRead(old(comments)[k])]
    {
      var found := IndexOf(comments, id);
      if found.None? {
        return Err(NotFound(CommentNotFound));
      }
      var k := found.value;
      var c := comments[k];
      var replies := c.replies;
      for i := 0 to |replies|
        invariant |replies| == |c.replies|
        invariant forall j :: 0 <= j < i ==> replies[j] == c.replies[j].(isNew := false)
        invariant forall j :: i <= j < |replies| ==> replies[j] == c.replies[j]
      {
        replies := replies[i := replies[i].(isNew := false)];
      }
      assert c.(isNew := false, replies := replies) == MarkedRead(c) by {
        assert replies == MarkedRead(c).replies;
      }
      HandlersPreserveWellFormed(c, "", "", 0);
      comments := comments[k := c.(isNew := false, replies := replies)];
      r := Ok(MarkedReadMessage);
    }

    /** `markCommentAdminRepliesAsRead`: 404 for an unknown id; otherwise the
        admin replies of that comment become read and its flag is cleared. */
    method MarkCommentAdminRepliesAsRead(id: Id) returns (r: Result<string>)
      requires Valid()
      modifies this
      ensures Valid() && nextId == old(nextId)
      ensures IndexOf(old(comments), id).None? ==> r == Err(NotFound(CommentNotFound)) && comments == old(comments)
      ensures IndexOf(old(comments), id).Some? ==>
        var k := IndexOf(old(comments), id).value;
        r == Ok(CommentAdminRepliesReadMessage) && comments == old(comments)[k := AdminRepliesRead(old(comments)[k])]
    {
      var found := IndexOf(comments, id);
      if found.None? {
        return Err(NotFound(CommentNotFound));
      }
      var k := found.value;
      var c := comments[k];
      var replies := c.replies;
      for i := 0 to |replies|
        invariant |replies| == |c.replies|
        invariant forall j :: 0 <= j < i ==> replies[j] == AdminReplyRead(c.replies[j])
        invariant forall j :: i <= j < |replies| ==> replies[j] == c.replies[j]
      {
        if replies[i].isAdminReply {
          replies := replies[i := replies[i].(isNew := false)];
        }
      }
      assert c.(hasUnreadAdminReply := false, replies := replies) == AdminRepliesRead(c) by {
        assert replies == AdminRepliesRead(c).replies;
      }
      HandlersPreserveWellFormed(c, "", "", 0);
      comments := comments[k := c.(hasUnreadAdminReply := false, replies := replies)];
      r := Ok(CommentAdminRepliesReadMessage);
    }

    /** `markAdminRepliesAsRead`: every comment of the caller whose flag is
        set gets its admin replies read and its flag cleared; the others are
        untouched. Afterwards none of the caller's comments has an unread
        admin reply. */
    method MarkAdminRepliesAsRead(caller: Id) returns (message: string)
      requires Valid()
      modifies this
      ensures Valid() && nextId == old(nextId)
      ensures message == AdminRepliesReadMessage
      ensures |comments| == |old(comments)|
      ensures forall i :: 0 <= i < |comments| ==>
        comments[i] == if OwnUnread(old(comments)[i], caller) then AdminRepliesRead(old(comments)[i]) else old(comments)[i]
      ensures forall i :: 0 <= i < |comments| && comments[i].worker == Some(caller) ==>
        !comments[i].hasUnreadAdminReply && !HasUnreadAdminReply(comments[i])
    {
      var i := 0;
      while i < |comments|
        invariant 0 <= i <= |comments| == |old(comments)|
        invariant nextId == old(nextId)
        invariant Valid()
        invariant forall j :: 0 <= j < i ==>
          comments[j] == if OwnUnread(old(comments)[j], caller) then AdminRepliesRead(old(comments)[j]) else old(comments)[j]
        invariant forall j :: i <= j < |comments| ==> comments[j] == old(comments)[j]
      {
        if OwnUnread(comments[i], caller) {
          HandlersPreserveWellFormed(comments[i], "", "", 0);
          comments := comments[i := AdminRepliesRead(comments[i])];
        }
        i := i + 1;
      }
      forall j | 0 <= j < |comments| && comments[j].worker == Some(caller)
        ensures !comments[j].hasUnreadAdminReply && !HasUnreadAdminReply(comments[j])
      {
        AdminRepliesReadClearsUnread(old(comments)[j]);
      }
      message := AdminRepliesReadMessage;
    }
  }
}
