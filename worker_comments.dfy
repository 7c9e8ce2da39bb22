/** The worker chat screen: the worker's own comments and their replies
    flattened into one thread, the count of unread admin replies, sending a
    comment and opening an unread admin reply. */
module WorkerComments {
  import opened Domain
  import opened Seqs
  import opened Text
  import CommentController

  datatype Sender = WorkerSender | AdminSender

  /** A bubble of the thread; `commentId` is the comment it belongs to. */
  datatype Message = Message(sender: Sender, text: string, createdAt: Timestamp, isNew: bool, commentId: Id)

  /** A comment as a worker bubble; it has no `isNew` of its own, which is
      falsy. */
  function CommentMessage(c: Comment): Message {
    Message(WorkerSender, c.text, c.createdAt, false, c.id)
  }

  /** A reply as a bubble: the admin's side when it is an admin reply, new
      only when it is an admin reply that is still new. */
  function ReplyMessage(commentId: Id, r: Reply): (m: Message)
    ensures m.sender == AdminSender <==> r.isAdminReply
    ensures m.isNew <==> r.isAdminReply && r.isNew
    ensures m.text == r.text && m.createdAt == r.createdAt && m.commentId == commentId
  {
    Message(if r.isAdminReply then AdminSender else WorkerSender, r.text, r.createdAt, r.isAdminReply && r.isNew, commentId)
  }

  function ReplyMessages(commentId: Id, rs: seq<Reply>): (ms: seq<Message>)
    ensures |ms| == |rs|
    ensures forall i :: 0 <= i < |ms| ==> ms[i] == ReplyMessage(commentId, rs[i])
  {
    if rs == [] then [] else ReplyMessages(commentId, rs[..|rs| - 1]) + [ReplyMessage(commentId, rs[|rs| - 1])]
  }

  /** The messages in the order `fetchMessages` pushes them: each comment
      followed by its replies. */
  function Flatten(cs: seq<PopulatedComment>): seq<Message> {
    if cs == [] then []
    else
      var c := cs[|cs| - 1].comment;
      Flatten(cs[..|cs| - 1]) + [CommentMessage(c)] + ReplyMessages(c.id, c.replies)
  }

  /** What the worker has not read yet: a new admin bubble. */
  function UnreadAdmin(m: Message): bool {
    m.sender == AdminSender && m.isNew
  }

  function MessageTime(m: Message): int {
    m.createdAt
  }

  /** Replies written by an admin and still new. */
  function NewAdminReplies(rs: seq<Reply>): nat {
    if rs == [] then 0
    else NewAdminReplies(rs[..|rs| - 1]) + (if rs[|rs| - 1].isAdminReply && rs[|rs| - 1].isNew then 1 else 0)
  }

  function UnreadAdminRepliesIn(cs: seq<PopulatedComment>): nat {
    if cs == [] then 0 else UnreadAdminRepliesIn(cs[..|cs| - 1]) + NewAdminReplies(cs[|cs| - 1].comment.replies)
  }

  /** A comment adds nothing to the count exactly when it has no unread
      admin reply in the controller's sense. */
  lemma {:induction false} UnreadAdminRepliesZero(c: Comment)
    ensures NewAdminReplies(c.replies) == 0 <==> !CommentController.HasUnreadAdminReply(c)
  {
    UnreadAdminRepliesZeroAux(c.replies);
  }

  lemma {:induction false} UnreadAdminRepliesZeroAux(rs: seq<Reply>)
    ensures NewAdminReplies(rs) == 0 <==> forall i :: 0 <= i < |rs| ==> !(rs[i].isAdminReply && rs[i].isNew)
  {
    if rs != [] {
      UnreadAdminRepliesZeroAux(rs[..|rs| - 1]);
      assert forall i :: 0 <= i < |rs| - 1 ==> rs[..|rs| - 1][i] == rs[i];
    }
  }

  lemma {:induction false} ReplyMessagesUnread(commentId: Id, rs: seq<Reply>)
    ensures Count(ReplyMessages(commentId, rs), UnreadAdmin) == NewAdminReplies(rs)
  {
    if rs != [] {
      ReplyMessagesUnread(commentId, rs[..|rs| - 1]);
      var last := ReplyMessage(commentId, rs[|rs| - 1]);
      FilterConcat(ReplyMessages(commentId, rs[..|rs| - 1]), [last], UnreadAdmin);
      FilterSingle(last, UnreadAdmin);
    }
  }

  /** The flattened thread has one bubble per comment and per reply, and its
      unread admin bubbles are exactly the unread admin replies. */
  lemma {:induction false} FlattenCounts(cs: seq<PopulatedComment>)
    ensures |Flatten(cs)| == |cs| + TotalReplies(cs)
    ensures Count(Flatten(cs), UnreadAdmin) == UnreadAdminRepliesIn(cs)
  {
    if cs != [] {
      var c := cs[|cs| - 1].comment;
      var head := CommentMessage(c);
      FlattenCounts(cs[..|cs| - 1]);
      ReplyMessagesUnread(c.id, c.replies);
      FilterConcat(Flatten(cs[..|cs| - 1]) + [head], ReplyMessages(c.id, c.replies), UnreadAdmin);
      FilterConcat(Flatten(cs[..|cs| - 1]), [head], UnreadAdmin);
      FilterSingle(head, UnreadAdmin);
    }
  }

  /** `fetchMessages` on the comments `getMyComments` returned: every comment
      and reply once, oldest first, and the badge counting the unread admin
      replies. */
  method FetchMessages(comments: seq<PopulatedComment>) returns (messages: seq<Message>, unreadAdminCount: nat)
    ensures SortedBy(messages, MessageTime)
    ensures multiset(messages) == multiset(Flatten(comments))
    ensures |messages| == |comments| + TotalReplies(comments)
    ensures unreadAdminCount == Count(messages, UnreadAdmin)
    ensures unreadAdminCount == UnreadAdminRepliesIn(comments)
  {
    var flatMessages: seq<Message> := [];
    for i := 0 to |comments|
      invariant flatMessages == Flatten(comments[..i])
    {
      var comment := comments[i].comment;
      assert comments[..i + 1][..i] == comments[..i];
      var head := flatMessages + [CommentMessage(comment)];
      flatMessages := head;
      for j := 0 to |comment.replies|
        invariant flatMessages == head + ReplyMessages(comment.id, comment.replies[..j])
      {
        assert comment.replies[..j + 1][..j] == comment.replies[..j];
        flatMessages := flatMessages + [ReplyMessage(comment.id, comment.replies[j])];
      }
      assert comment.replies[..|comment.replies|] == comment.replies;
    }
    assert comments[..|comments|] == comments;
    messages := SortBy(flatMessages, MessageTime);
    FlattenCounts(comments);
    FilterPermutation(messages, flatMessages, UnreadAdmin);
    unreadAdminCount := Count(messages, UnreadAdmin);
  }

  /** The badge is zero exactly when no comment has an unread admin reply. */
  lemma {:induction false} NoBadgeIffAllRead(cs: seq<PopulatedComment>)
    ensures UnreadAdminRepliesIn(cs) == 0 <==>
      forall i :: 0 <= i < |cs| ==> !CommentController.HasUnreadAdminReply(cs[i].comment)
  {
    if cs != [] {
      NoBadgeIffAllRead(cs[..|cs| - 1]);
      UnreadAdminRepliesZero(cs[|cs| - 1].comment);
      assert forall i :: 0 <= i < |cs| - 1 ==> cs[..|cs| - 1][i] == cs[i];
    }
  }

  /** Replacing one comment of the list changes the badge by the difference
      of that comment's own counts. */
  lemma {:induction false} UnreadAdminRepliesInUpdate(cs: seq<PopulatedComment>, i: nat, x: PopulatedComment)
    requires i < |cs|
    ensures UnreadAdminRepliesIn(cs[i := x]) + NewAdminReplies(cs[i].comment.replies) ==
      UnreadAdminRepliesIn(cs) + NewAdminReplies(x.comment.replies)
  {
    var n := |cs| - 1;
    if i < n {
      assert cs[i := x][..n] == cs[..n][i := x];
      UnreadAdminRepliesInUpdate(cs[..n], i, x);
    } else {
      assert cs[i := x][..n] == cs[..n];
    }
  }

  /** Marking one comment's admin replies read, as the handler behind a
      click does, lowers the badge by exactly that comment's unread admin
      replies. */
  lemma MarkAsReadLowersBadge(cs: seq<PopulatedComment>, i: nat)
    requires i < |cs|
    ensures
      var marked := cs[i := cs[i].(comment := CommentController.AdminRepliesRead(cs[i].comment))];
      UnreadAdminRepliesIn(marked) + NewAdminReplies(cs[i].comment.replies) == UnreadAdminRepliesIn(cs)
  {
    var read := CommentController.AdminRepliesRead(cs[i].comment);
    CommentController.AdminRepliesReadClearsUnread(cs[i].comment);
    UnreadAdminRepliesZero(read);
    UnreadAdminRepliesInUpdate(cs, i, cs[i].(comment := read));
  }

  // ---------------------------------------------------------------------
  // Clicking a bubble

  /** `msg.sender === 'admin' && msg.isNew && handleMarkAsRead(msg.commentId)`:
      the comment whose admin replies a click marks read, if any. */
  function ClickTarget(m: Message): (r: Option<Id>)
    ensures r.Some? <==> UnreadAdmin(m)
    ensures r.Some? ==> r.value == m.commentId
  {
    if m.sender == AdminSender && m.isNew then Some(m.commentId) else None
  }

  /** A click target is a comment of the thread that has an unread admin
      reply, so the request it sends finds the comment and has work to do. */
  lemma {:induction false} ClickTargetHasUnread(cs: seq<PopulatedComment>, m: Message)
    requires m in Flatten(cs) && ClickTarget(m).Some?
    ensures exists k :: (0 <= k < |cs| && cs[k].comment.id == ClickTarget(m).value &&
      CommentController.HasUnreadAdminReply(cs[k].comment))
  {
    var n := |cs| - 1;
    var c := cs[n].comment;
    if m in Flatten(cs[..n]) {
      ClickTargetHasUnread(cs[..n], m);
      var k :| 0 <= k < n && cs[..n][k].comment.id == ClickTarget(m).value &&
        CommentController.HasUnreadAdminReply(cs[..n][k].comment);
      assert cs[..n][k] == cs[k];
    } else if m != CommentMessage(c) {
      var rs := ReplyMessages(c.id, c.replies);
      assert m in rs;
      var j :| 0 <= j < |rs| && rs[j] == m;
      assert c.replies[j].isAdminReply && c.replies[j].isNew;
    }
  }

  // ---------------------------------------------------------------------
  // Sending

  datatype SendAction =
    | Ignore                                 // blank input
    | InvalidSubdomain                       // toast 'Invalid subdomain'
    | Create(text: string, subdomain: string)

  /** `handleSendMessage`: nothing for blank input, an error for a missing
      or the main subdomain, otherwise a comment with the trimmed text. The
      request it makes passes both checks of `createComment`. */
  function SendMessage(newMessage: string, subdomain: string): (r: SendAction)
    ensures r == Ignore <==> IsBlank(newMessage)
    ensures r == InvalidSubdomain <==> !IsBlank(newMessage) && !ValidSubdomain(subdomain)
    ensures r.Create? ==> r.text == Trim(newMessage) && r.text != "" && r.subdomain == subdomain
    ensures r.Create? ==> ValidSubdomain(r.subdomain)
    ensures r.Create? ==> !IsSpace(r.text[0]) && !IsSpace(r.text[|r.text| - 1])
  {
    if Trim(newMessage) == [] then Ignore
    else if subdomain == "" || subdomain == MainSubdomain then InvalidSubdomain
    else Create(Trim(newMessage), subdomain)
  }

  /** The send button's `disabled={!newMessage.trim() || isSending}`. */
  function SendDisabled(newMessage: string, isSending: bool): (r: bool)
    ensures !r <==> !IsBlank(newMessage) && !isSending
  {
    Trim(newMessage) == [] || isSending
  }

  /** An enabled button never sends a blank message. */
  lemma EnabledSendIsNotIgnored(newMessage: string, subdomain: string, isSending: bool)
    requires !SendDisabled(newMessage, isSending)
    ensures SendMessage(newMessage, subdomain) != Ignore
  {
  }
}
