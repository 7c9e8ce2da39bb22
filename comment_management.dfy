/** The admin chat screen: the chat list built from the tenant's comments and
    the saved groups, unread counts against per-chat last-read times kept in
    local storage, the merged message thread, selection and soft deletion. */
module CommentManagement {
  import opened Domain
  import opened Seqs
  import opened Text

  /** An entry of the chat list: a saved group, or a commenting worker
      spread into `{ ...worker, isGroup: false }`. */
  datatype Chat = Chat(id: Id, name: string, isGroup: bool, department: Option<string>)

  function WorkerChat(w: Worker): Chat {
    Chat(w.id, w.name, false, w.department)
  }

  /** A message of the thread pane; replies of either role are `isWorker: false`. */
  datatype ChatMessage = ChatMessage(text: string, createdAt: Timestamp, isWorker: bool)

  /** The component state the handlers read and replace. `lastRead` is the
      `lastReadTimestamps_<subdomain>` entry of local storage and `deletedIds`
      the `deletedWorkerIds_<subdomain>` entry. */
  datatype Panel = Panel(
    chatList: seq<Chat>,
    allWorkers: seq<Worker>,
    comments: seq<PopulatedComment>,
    deletedIds: seq<Id>,
    selectedWorkers: seq<Id>,
    selectionMode: bool,
    selectedChat: Option<Chat>,
    lastRead: map<Id, Timestamp>,
    unread: map<Id, nat>)

  // ---------------------------------------------------------------------
  // Unread counts

  /** `lastReadTimestamps[id] || 0`. */
  function LastRead(lastRead: map<Id, Timestamp>, id: Id): Timestamp {
    if id in lastRead then lastRead[id] else 0
  }

  /** `unreadCounts[id] > 0` is false for a missing entry. */
  function UnreadOf(unread: map<Id, nat>, id: Id): nat {
    if id in unread then unread[id] else 0
  }

  /** `comments.filter(c => c.worker?._id === workerId)`. */
  function CommentsOf(comments: seq<PopulatedComment>, workerId: Id): (r: seq<PopulatedComment>)
    ensures forall c :: c in r <==> c in comments && c.WorkerId() == Some(workerId)
  {
    Filter(comments, (c: PopulatedComment) => c.WorkerId() == Some(workerId))
  }

  /** Replies newer than `since` that are not admin replies. */
  function NewerWorkerReplies(rs: seq<Reply>, since: Timestamp): nat {
    if rs == [] then 0
    else
      var last := rs[|rs| - 1];
      NewerWorkerReplies(rs[..|rs| - 1], since) + (if last.createdAt > since && !last.isAdminReply then 1 else 0)
  }

  /** What one comment adds to the count: itself if newer, and its newer
      worker replies. */
  function CommentUnread(c: PopulatedComment, since: Timestamp): nat {
    (if c.comment.createdAt > since then 1 else 0) + NewerWorkerReplies(c.comment.replies, since)
  }

  function UnreadIn(cs: seq<PopulatedComment>, since: Timestamp): nat {
    if cs == [] then 0 else UnreadIn(cs[..|cs| - 1], since) + CommentUnread(cs[|cs| - 1], since)
  }

  /** The count `calculateUnreadCounts` gives a chat: 0 for a group. */
  function UnreadCount(chat: Chat, comments: seq<PopulatedComment>, lastRead: map<Id, Timestamp>): nat {
    if chat.isGroup then 0 else UnreadIn(CommentsOf(comments, chat.id), LastRead(lastRead, chat.id))
  }

  /** The `counts` object after visiting `chats` in order; a later chat with
      the same id overwrites an earlier one. */
  function CountsOf(chats: seq<Chat>, comments: seq<PopulatedComment>, lastRead: map<Id, Timestamp>): map<Id, nat> {
    if chats == [] then map[]
    else
      var last := chats[|chats| - 1];
      CountsOf(chats[..|chats| - 1], comments, lastRead)[last.id := UnreadCount(last, comments, lastRead)]
  }

  /** Every chat has an entry, and a chat whose id no later chat repeats has
      the count of its own messages (for groups, 0). */
  lemma {:induction false} CountsOfAt(chats: seq<Chat>, comments: seq<PopulatedComment>, lastRead: map<Id, Timestamp>, i: nat)
    requires i < |chats|
    requires forall j :: i < j < |chats| ==> chats[j].id != chats[i].id
    ensures chats[i].id in CountsOf(chats, comments, lastRead)
    ensures CountsOf(chats, comments, lastRead)[chats[i].id] == UnreadCount(chats[i], comments, lastRead)
    ensures chats[i].isGroup ==> CountsOf(chats, comments, lastRead)[chats[i].id] == 0
  {
    if i < |chats| - 1 {
      CountsOfAt(chats[..|chats| - 1], comments, lastRead, i);
    }
  }

  lemma {:induction false} CountsOfKeys(chats: seq<Chat>, comments: seq<PopulatedComment>, lastRead: map<Id, Timestamp>)
    ensures CountsOf(chats, comments, lastRead).Keys == set c | c in chats :: c.id
  {
    if chats != [] {
      CountsOfKeys(chats[..|chats| - 1], comments, lastRead);
      assert chats == chats[..|chats| - 1] + [chats[|chats| - 1]];
    }
  }

  lemma {:induction false} NewerWorkerRepliesNone(rs: seq<Reply>, since: Timestamp)
    requires forall i :: 0 <= i < |rs| ==> rs[i].createdAt <= since
    ensures NewerWorkerReplies(rs, since) == 0
  {
    if rs != [] {
      NewerWorkerRepliesNone(rs[..|rs| - 1], since);
    }
  }

  /** Every message of the thread is at or before `since`. */
  ghost predicate AllAtOrBefore(cs: seq<PopulatedComment>, since: Timestamp) {
    forall i :: 0 <= i < |cs| ==>
      cs[i].comment.createdAt <= since &&
      forall j :: 0 <= j < |cs[i].comment.replies| ==> cs[i].comment.replies[j].createdAt <= since
  }

  /** Read at a time no earlier than every message: nothing is unread. */
  lemma {:induction false} UnreadInNone(cs: seq<PopulatedComment>, since: Timestamp)
    requires AllAtOrBefore(cs, since)
    ensures UnreadIn(cs, since) == 0
  {
    if cs != [] {
      UnreadInNone(cs[..|cs| - 1], since);
      NewerWorkerRepliesNone(cs[|cs| - 1].comment.replies, since);
    }
  }

  lemma {:induction false} NewerWorkerRepliesAntitone(rs: seq<Reply>, earlier: Timestamp, later: Timestamp)
    requires earlier <= later
    ensures NewerWorkerReplies(rs, later) <= NewerWorkerReplies(rs, earlier)
  {
    if rs != [] {
      NewerWorkerRepliesAntitone(rs[..|rs| - 1], earlier, later);
    }
  }

  /** Moving the last-read time forward never raises the count. */
  lemma {:induction false} UnreadInAntitone(cs: seq<PopulatedComment>, earlier: Timestamp, later: Timestamp)
    requires earlier <= later
    ensures UnreadIn(cs, later) <= UnreadIn(cs, earlier)
  {
    if cs != [] {
      UnreadInAntitone(cs[..|cs| - 1], earlier, later);
      NewerWorkerRepliesAntitone(cs[|cs| - 1].comment.replies, earlier, later);
    }
  }

  /** The inner loops of `calculateUnreadCounts` for one worker chat. */
  method WorkerUnread(workerComments: seq<PopulatedComment>, lastReadTime: Timestamp) returns (unreadCount: nat)
    ensures unreadCount == UnreadIn(workerComments, lastReadTime)
  {
    unreadCount := 0;
    for i := 0 to |workerComments|
      invariant unreadCount == UnreadIn(workerComments[..i], lastReadTime)
    {
      var comment := workerComments[i];
      assert workerComments[..i + 1][..i] == workerComments[..i];
      if comment.comment.createdAt > lastReadTime {
        unreadCount := unreadCount + 1;
      }
      var replies := comment.comment.replies;
      for j := 0 to |replies|
        invariant unreadCount == UnreadIn(workerComments[..i], lastReadTime)
          + (if comment.comment.createdAt > lastReadTime then 1 else 0)
          + NewerWorkerReplies(replies[..j], lastReadTime)
      {
        assert replies[..j + 1][..j] == replies[..j];
        if replies[j].createdAt > lastReadTime && !replies[j].isAdminReply {
          unreadCount := unreadCount + 1;
        }
      }
      assert replies[..|replies|] == replies;
    }
    assert workerComments[..|workerComments|] == workerComments;
  }

  /** `calculateUnreadCounts`: one entry per chat id, 0 for groups, for a
      worker the comments and worker replies newer than its last-read time. */
  method CalculateUnreadCounts(chatList: seq<Chat>, comments: seq<PopulatedComment>, lastRead: map<Id, Timestamp>)
    returns (counts: map<Id, nat>)
    ensures counts.Keys == set c | c in chatList :: c.id
    ensures counts == CountsOf(chatList, comments, lastRead)
    ensures forall i :: 0 <= i < |chatList| && (forall j :: i < j < |chatList| ==> chatList[j].id != chatList[i].id) ==>
      counts[chatList[i].id] == UnreadCount(chatList[i], comments, lastRead)
  {
    counts := map[];
    for k := 0 to |chatList|
      invariant counts == CountsOf(chatList[..k], comments, lastRead)
    {
      var chat := chatList[k];
      assert chatList[..k + 1][..k] == chatList[..k];
      if chat.isGroup {
        counts := counts[chat.id := 0];
      } else {
        var unreadCount := WorkerUnread(CommentsOf(comments, chat.id), LastRead(lastRead, chat.id));
        counts := counts[chat.id := unreadCount];
      }
    }
    assert chatList[..|chatList|] == chatList;
    CountsOfKeys(chatList, comments, lastRead);
    forall i | 0 <= i < |chatList| && (forall j :: i < j < |chatList| ==> chatList[j].id != chatList[i].id)
      ensures counts[chatList[i].id] == UnreadCount(chatList[i], comments, lastRead)
    {
      CountsOfAt(chatList, comments, lastRead, i);
    }
  }

  // ---------------------------------------------------------------------
  // Read marking

  /** `markChatAsRead`: that chat's last-read time becomes `now` and its
      count 0; every other entry of both maps is kept. */
  function MarkChatAsRead(p: Panel, chatId: Id, now: Timestamp): (r: Panel)
    ensures r.lastRead.Keys == p.lastRead.Keys + {chatId} && r.lastRead[chatId] == now
    ensures r.unread.Keys == p.unread.Keys + {chatId} && r.unread[chatId] == 0
    ensures forall k :: k in p.lastRead && k != chatId ==> r.lastRead[k] == p.lastRead[k]
    ensures forall k :: k in p.unread && k != chatId ==> r.unread[k] == p.unread[k]
    ensures r == p.(lastRead := r.lastRead, unread := r.unread)
  {
    p.(lastRead := p.lastRead[chatId := now], unread := p.unread[chatId := 0])
  }

  /** Marked read at a time no earlier than any of its messages, a worker
      chat counts nothing, whatever the other chats hold. */
  lemma MarkChatAsReadClears(p: Panel, chat: Chat, now: Timestamp)
    requires AllAtOrBefore(CommentsOf(p.comments, chat.id), now)
    ensures UnreadCount(chat, p.comments, MarkChatAsRead(p, chat.id, now).lastRead) == 0
  {
    UnreadInNone(CommentsOf(p.comments, chat.id), now);
  }

  /** The ids of the non-group chats. */
  function WorkerChatIds(chats: seq<Chat>): set<Id> {
    set c | c in chats && !c.isGroup :: c.id
  }

  /** `handleReadAll`: every non-group chat's last-read time becomes `now`;
      groups and ids not in the list keep theirs. */
  method ReadAll(lastRead: map<Id, Timestamp>, chatList: seq<Chat>, now: Timestamp)
    returns (updated: map<Id, Timestamp>)
    ensures updated.Keys == lastRead.Keys + WorkerChatIds(chatList)
    ensures forall k :: k in WorkerChatIds(chatList) ==> updated[k] == now
    ensures forall k :: k in lastRead && k !in WorkerChatIds(chatList) ==> updated[k] == lastRead[k]
  {
    updated := lastRead;
    for i := 0 to |chatList|
      invariant updated.Keys == lastRead.Keys + WorkerChatIds(chatList[..i])
      invariant forall k :: k in WorkerChatIds(chatList[..i]) ==> updated[k] == now
      invariant forall k :: k in lastRead && k !in WorkerChatIds(chatList[..i]) ==> updated[k] == lastRead[k]
    {
      assert chatList[..i + 1] == chatList[..i] + [chatList[i]];
      assert WorkerChatIds(chatList[..i + 1]) ==
        WorkerChatIds(chatList[..i]) + (if chatList[i].isGroup then {} else {chatList[i].id});
      if !chatList[i].isGroup {
        updated := updated[chatList[i].id := now];
      }
    }
    assert chatList[..|chatList|] == chatList;
  }

  // ---------------------------------------------------------------------
  // Loading the chat list

  /** Comments kept on load: those with a worker whose id has not been
      soft-deleted (the placeholder has no id, so it is never excluded). */
  function Visible(comments: seq<PopulatedComment>, excluded: seq<Id>): (r: seq<PopulatedComment>)
    ensures forall c :: c in r <==> c in comments && Shows(c, excluded)
    ensures forall c :: multiset(r)[c] == if Shows(c, excluded) then multiset(comments)[c] else 0
    ensures SubsequenceOf(r, comments)
  {
    var keep := (c: PopulatedComment) => Shows(c, excluded);
    FilterSubsequence(comments, keep);
    Filter(comments, keep)
  }

  /** A comment stays visible when it has a worker that is not excluded. */
  predicate Shows(c: PopulatedComment, excluded: seq<Id>) {
    c.worker.Some? && (c.WorkerId().None? || c.WorkerId().value !in excluded)
  }

  function WorkerIds(ws: seq<Worker>): set<Id> {
    set w | w in ws :: w.id
  }

  /** The values of `commentingWorkersMap`, in insertion order: each worker
      the first time a comment of it is seen, skipping the name
      "Unknown Worker" (which the placeholder always has). */
  function CommentingWorkers(cs: seq<PopulatedComment>): seq<Worker> {
    if cs == [] then []
    else
      var ws := CommentingWorkers(cs[..|cs| - 1]);
      var c := cs[|cs| - 1];
      if c.worker.Some? && c.worker.value.Known? && c.worker.value.worker.id !in WorkerIds(ws)
         && c.worker.value.worker.name != UnknownWorkerName
      then ws + [c.worker.value.worker]
      else ws
  }

  /** The commenting workers have distinct ids, none is named
      "Unknown Worker", each wrote one of the comments, and every author
      with another name is among them. */
  lemma {:induction false} CommentingWorkersFacts(cs: seq<PopulatedComment>)
    ensures var ws := CommentingWorkers(cs);
      && (forall i, j :: 0 <= i < j < |ws| ==> ws[i].id != ws[j].id)
      && (forall i :: 0 <= i < |ws| ==> ws[i].name != UnknownWorkerName)
      && (forall w :: w in ws ==> exists c :: c in cs && c.worker == Some(Known(w)))
      && (forall c :: c in cs && c.worker.Some? && c.worker.value.Known? && c.worker.value.worker.name != UnknownWorkerName
            ==> c.worker.value.worker.id in WorkerIds(ws))
  {
    if cs != [] {
      var prefix := cs[..|cs| - 1];
      CommentingWorkersFacts(prefix);
      assert cs == prefix + [cs[|cs| - 1]];
      var ws := CommentingWorkers(cs);
      forall w | w in ws ensures exists c :: c in cs && c.worker == Some(Known(w)) {
        if w in CommentingWorkers(prefix) {
          var c :| c in prefix && c.worker == Some(Known(w));
          assert c in cs;
        } else {
          assert cs[|cs| - 1] in cs;
        }
      }
    }
  }

  /** The loop of `loadData` filling `commentingWorkersMap`. */
  method CollectWorkers(comments: seq<PopulatedComment>) returns (workers: seq<Worker>)
    ensures workers == CommentingWorkers(comments)
  {
    var seen: set<Id> := {};
    workers := [];
    for i := 0 to |comments|
      invariant workers == CommentingWorkers(comments[..i])
      invariant seen == WorkerIds(workers)
    {
      var c := comments[i];
      assert comments[..i + 1][..i] == comments[..i];
      if c.worker.Some? && c.worker.value.Known? {
        var w := c.worker.value.worker;
        if w.id !in seen && w.name != UnknownWorkerName {
          seen := seen + {w.id};
          workers := workers + [w];
        }
      }
    }
    assert comments[..|comments|] == comments;
  }

  /** `loadData`: drops comments without a worker or of a soft-deleted
      worker; the chat list is the saved groups followed by one entry per
      distinct commenting worker, in order of first appearance. */
  method LoadData(fetched: seq<PopulatedComment>, deletedIds: seq<Id>, savedGroups: seq<Chat>)
    returns (comments: seq<PopulatedComment>, chatList: seq<Chat>)
    ensures comments == Visible(fetched, deletedIds)
    ensures |chatList| >= |savedGroups| && chatList[..|savedGroups|] == savedGroups
    ensures chatList[|savedGroups|..] == seq(|CommentingWorkers(comments)|, i requires 0 <= i < |CommentingWorkers(comments)| => WorkerChat(CommentingWorkers(comments)[i]))
    ensures forall i, j :: |savedGroups| <= i < j < |chatList| ==> chatList[i].id != chatList[j].id
    ensures forall i :: |savedGroups| <= i < |chatList| ==>
      !chatList[i].isGroup && chatList[i].name != UnknownWorkerName && chatList[i].id !in deletedIds
  {
    comments := Visible(fetched, deletedIds);
    var workers := CollectWorkers(comments);
    CommentingWorkersFacts(comments);
    forall i | 0 <= i < |workers| ensures workers[i].id !in deletedIds {
      var c :| c in comments && c.worker == Some(Known(workers[i]));
    }
    chatList := savedGroups + seq(|workers|, i requires 0 <= i < |workers| => WorkerChat(workers[i]));
  }

  // ---------------------------------------------------------------------
  // The message thread

  function ReplyMessages(rs: seq<Reply>): (ms: seq<ChatMessage>)
    ensures |ms| == |rs|
  {
    if rs == [] then []
    else ReplyMessages(rs[..|rs| - 1]) + [ChatMessage(rs[|rs| - 1].text, rs[|rs| - 1].createdAt, false)]
  }

  /** Each comment as a worker message followed by its replies, before sorting. */
  function ThreadMessages(cs: seq<PopulatedComment>): seq<ChatMessage> {
    if cs == [] then []
    else
      var c := cs[|cs| - 1].comment;
      ThreadMessages(cs[..|cs| - 1]) + [ChatMessage(c.text, c.createdAt, true)] + ReplyMessages(c.replies)
  }

  function IsWorkerMessage(m: ChatMessage): bool {
    m.isWorker
  }

  lemma {:induction false} ReplyMessagesNotWorker(rs: seq<Reply>)
    ensures Count(ReplyMessages(rs), IsWorkerMessage) == 0
  {
    if rs != [] {
      ReplyMessagesNotWorker(rs[..|rs| - 1]);
      var last := ChatMessage(rs[|rs| - 1].text, rs[|rs| - 1].createdAt, false);
      FilterConcat(ReplyMessages(rs[..|rs| - 1]), [last], IsWorkerMessage);
      FilterSingle(last, IsWorkerMessage);
    }
  }

  /** The thread holds one worker message per comment and one other message
      per reply. */
  lemma {:induction false} ThreadMessagesCounts(cs: seq<PopulatedComment>)
    ensures |ThreadMessages(cs)| == |cs| + TotalReplies(cs)
    ensures Count(ThreadMessages(cs), IsWorkerMessage) == |cs|
  {
    if cs != [] {
      var c := cs[|cs| - 1].comment;
      var head := ChatMessage(c.text, c.createdAt, true);
      ThreadMessagesCounts(cs[..|cs| - 1]);
      ReplyMessagesNotWorker(c.replies);
      FilterConcat(ThreadMessages(cs[..|cs| - 1]) + [head], ReplyMessages(c.replies), IsWorkerMessage);
      FilterConcat(ThreadMessages(cs[..|cs| - 1]), [head], IsWorkerMessage);
      FilterSingle(head, IsWorkerMessage);
    }
  }

  function MessageTime(m: ChatMessage): int {
    m.createdAt
  }

  /** The message effect: for a selected worker chat, that worker's comments
      and their replies, each exactly once, oldest first; otherwise nothing. */
  method ChatMessages(selectedChat: Option<Chat>, comments: seq<PopulatedComment>)
    returns (messages: seq<ChatMessage>)
    ensures selectedChat.None? || selectedChat.value.isGroup ==> messages == []
    ensures selectedChat.Some? && !selectedChat.value.isGroup ==>
      var thread := CommentsOf(comments, selectedChat.value.id);
      && multiset(messages) == multiset(ThreadMessages(thread))
      && |messages| == |thread| + TotalReplies(thread)
      && Count(messages, IsWorkerMessage) == |thread|
    ensures SortedBy(messages, MessageTime)
  {
    if selectedChat.None? || selectedChat.value.isGroup {
      return [];
    }
    var workerComments := CommentsOf(comments, selectedChat.value.id);
    var pushed: seq<ChatMessage> := [];
    for i := 0 to |workerComments|
      invariant pushed == ThreadMessages(workerComments[..i])
    {
      var comment := workerComments[i].comment;
      assert workerComments[..i + 1][..i] == workerComments[..i];
      var head := pushed + [ChatMessage(comment.text, comment.createdAt, true)];
      pushed := head;
      for j := 0 to |comment.replies|
        invariant pushed == head + ReplyMessages(comment.replies[..j])
      {
        var reply := comment.replies[j];
        assert comment.replies[..j + 1][..j] == comment.replies[..j];
        pushed := pushed + [ChatMessage(reply.text, reply.createdAt, false)];
      }
      assert comment.replies[..|comment.replies|] == comment.replies;
    }
    assert workerComments[..|workerComments|] == workerComments;
    messages := SortBy(pushed, MessageTime);
    ThreadMessagesCounts(workerComments);
    FilterPermutation(messages, pushed, IsWorkerMessage);
  }

  // ---------------------------------------------------------------------
  // Selection and soft deletion

  /** `ids.filter(x => x !== id)`. */
  function Without(ids: seq<Id>, id: Id): (r: seq<Id>)
    ensures forall x :: x in r <==> x in ids && x != id
    ensures forall x :: multiset(r)[x] == if x != id then multiset(ids)[x] else 0
    ensures SubsequenceOf(r, ids)
  {
    var keep := (x: Id) => x != id;
    FilterSubsequence(ids, keep);
    Filter(ids, keep)
  }

  /** `handleWorkerSelection`: adds an absent id at the end and removes a
      present one. */
  function ToggleWorker(selected: seq<Id>, id: Id): (r: seq<Id>)
    ensures id in r <==> id !in selected
    ensures forall x :: x != id ==> (x in r <==> x in selected)
    ensures Distinct(selected) ==> Distinct(r)
    ensures id !in selected ==> r == selected + [id]
    ensures id in selected ==> r == Without(selected, id)
  {
    if id in selected then
      FilterDistinctWithout(selected, id);
      Without(selected, id)
    else selected + [id]
  }

  lemma FilterDistinctWithout(ids: seq<Id>, id: Id)
    ensures Distinct(ids) ==> Distinct(Without(ids, id))
  {
    if Distinct(ids) { FilterDistinct(ids, (x: Id) => x != id); }
  }

  /** Toggling twice restores the selection as a set, and restores the very
      sequence when the id was not selected. */
  lemma ToggleTwice(selected: seq<Id>, id: Id)
    ensures forall x :: x in ToggleWorker(ToggleWorker(selected, id), id) <==> x in selected
    ensures id !in selected ==> ToggleWorker(ToggleWorker(selected, id), id) == selected
  {
    if id !in selected {
      FilterConcat(selected, [id], (x: Id) => x != id);
      FilterSingle(id, (x: Id) => x != id);
      FilterKeepsAll(selected, (x: Id) => x != id);
    }
  }

  /** `toggleSelectionMode`: flips the mode and clears the selection when
      the mode is entered. */
  function ToggleSelectionMode(p: Panel): (r: Panel)
    ensures r.selectionMode == !p.selectionMode
    ensures r.selectedWorkers == if p.selectionMode then p.selectedWorkers else []
    ensures r == p.(selectionMode := r.selectionMode, selectedWorkers := r.selectedWorkers)
  {
    p.(selectionMode := !p.selectionMode, selectedWorkers := if p.selectionMode then p.selectedWorkers else [])
  }


  /** The chats whose id is not among `ids`, in their order. */
  function WithoutChats(chats: seq<Chat>, ids: seq<Id>): (r: seq<Chat>)
    ensures forall c :: c in r <==> c in chats && c.id !in ids
    ensures forall c :: multiset(r)[c] == if c.id !in ids then multiset(chats)[c] else 0
    ensures SubsequenceOf(r, chats)
  {
    var keep := (c: Chat) => c.id !in ids;
    FilterSubsequence(chats, keep);
    Filter(chats, keep)
  }

  /** The workers whose id is not among `ids`, in their order. */
  function WithoutWorkers(ws: seq<Worker>, ids: seq<Id>): (r: seq<Worker>)
    ensures forall w :: w in r <==> w in ws && w.id !in ids
    ensures forall w :: multiset(r)[w] == if w.id !in ids then multiset(ws)[w] else 0
    ensures SubsequenceOf(r, ws)
  {
    var keep := (w: Worker) => w.id !in ids;
    FilterSubsequence(ws, keep);
    Filter(ws, keep)
  }

  /** `handleDeleteSelected`: nothing without a selection; otherwise the
      selected ids join the deleted list and leave the chat list, the worker
      list and the comments, the selection ends, and a deleted selected chat
      is deselected. */
  function DeleteSelected(p: Panel): (r: Panel)
    ensures |p.selectedWorkers| == 0 ==> r == p
    ensures |p.selectedWorkers| > 0 ==>
      && r.deletedIds == p.deletedIds + p.selectedWorkers
      && (forall c :: c in r.chatList <==> c in p.chatList && c.id !in p.selectedWorkers)
      && (forall c :: multiset(r.chatList)[c] == if c.id !in p.selectedWorkers then multiset(p.chatList)[c] else 0)
      && SubsequenceOf(r.chatList, p.chatList)
      && (forall w :: w in r.allWorkers <==> w in p.allWorkers && w.id !in p.selectedWorkers)
      && (forall w :: multiset(r.allWorkers)[w] == if w.id !in p.selectedWorkers then multiset(p.allWorkers)[w] else 0)
      && SubsequenceOf(r.allWorkers, p.allWorkers)
      && (forall c :: c in r.comments <==>
            (c in p.comments && c.worker.Some? && (c.WorkerId().None? || c.WorkerId().value !in p.selectedWorkers)))
      && (forall c :: multiset(r.comments)[c] == if Shows(c, p.selectedWorkers) then multiset(p.comments)[c] else 0)
      && SubsequenceOf(r.comments, p.comments)
      && r.selectedWorkers == [] && !r.selectionMode
      && (r.selectedChat.None? <==> p.selectedChat.None? || p.selectedChat.value.id in p.selectedWorkers)
      && (r.selectedChat.Some? ==> r.selectedChat == p.selectedChat)
      && r.lastRead == p.lastRead && r.unread == p.unread
  {
    if |p.selectedWorkers| == 0 then p
    else
      var sel := p.selectedWorkers;
      p.(deletedIds := p.deletedIds + sel,
         chatList := WithoutChats(p.chatList, sel),
         allWorkers := WithoutWorkers(p.allWorkers, sel),
         comments := Visible(p.comments, sel),
         selectedWorkers := [],
         selectionMode := false,
         selectedChat := if p.selectedChat.Some? && p.selectedChat.value.id in sel then None else p.selectedChat)
  }

  /** A deleted worker stays out of the chat list when the data is loaded
      again with the updated deleted list. */
  method DeletedStayDeleted(p: Panel, fetched: seq<PopulatedComment>, savedGroups: seq<Chat>)
    returns (chatList: seq<Chat>)
    requires |p.selectedWorkers| > 0
    ensures forall i :: |savedGroups| <= i < |chatList| ==> chatList[i].id !in p.selectedWorkers
    ensures |chatList| >= |savedGroups| && chatList[..|savedGroups|] == savedGroups
  {
    var q := DeleteSelected(p);
    var comments;
    comments, chatList := LoadData(fetched, q.deletedIds, savedGroups);
  }

  /** `handleChatSelect`: ignored in selection mode; a soft-deleted chat
      deselects; otherwise the chat is selected and marked read when it is a
      worker chat with a positive count. */
  function ChatSelect(p: Panel, chat: Chat, now: Timestamp): (r: Panel)
    ensures p.selectionMode ==> r == p
    ensures !p.selectionMode && chat.id in p.deletedIds ==> r == p.(selectedChat := None)
    ensures !p.selectionMode && chat.id !in p.deletedIds ==>
      && r.selectedChat == Some(chat)
      && (if !chat.isGroup && UnreadOf(p.unread, chat.id) > 0
          then r == MarkChatAsRead(p.(selectedChat := Some(chat)), chat.id, now)
          else r == p.(selectedChat := Some(chat)))
  {
    if p.selectionMode then p
    else if chat.id in p.deletedIds then p.(selectedChat := None)
    else
      var q := p.(selectedChat := Some(chat));
      if !chat.isGroup && UnreadOf(p.unread, chat.id) > 0 then MarkChatAsRead(q, chat.id, now) else q
  }

  // ---------------------------------------------------------------------
  // Sending a reply

  datatype ReplyAction =
    | Ignore                               // blank text, no chat, or a group
    | NoThread                             // "Could not find a conversation thread to reply to."
    | SendReply(commentId: Id, text: string)

  /** `comments.find(c => c.worker?._id === workerId)`. */
  function FirstCommentOf(comments: seq<PopulatedComment>, workerId: Id): (r: Option<nat>)
    ensures r.Some? ==> r.value < |comments| && comments[r.value].WorkerId() == Some(workerId)
    ensures r.Some? ==> forall j :: 0 <= j < r.value ==> comments[j].WorkerId() != Some(workerId)
    ensures r.None? <==> forall j :: 0 <= j < |comments| ==> comments[j].WorkerId() != Some(workerId)
  {
    if comments == [] then None
    else if comments[0].WorkerId() == Some(workerId) then Some(0)
    else
      match FirstCommentOf(comments[1..], workerId)
      case None => None
      case Some(k) => Some(k + 1)
  }

  /** `handleSubmitReply`: sends the untrimmed text as a reply to the first
      comment of the selected worker, unless the text is blank, no chat or a
      group is selected, or the worker has no comment. */
  function SubmitReply(replyText: string, selectedChat: Option<Chat>, comments: seq<PopulatedComment>): (r: ReplyAction)
    ensures r == Ignore <==> IsBlank(replyText) || selectedChat.None? || selectedChat.value.isGroup
    ensures r == NoThread <==>
      !IsBlank(replyText) && selectedChat.Some? && !selectedChat.value.isGroup &&
      forall j :: 0 <= j < |comments| ==> comments[j].WorkerId() != Some(selectedChat.value.id)
    ensures r.SendReply? ==>
      && r.text == replyText && r.text != ""
      && exists k :: 0 <= k < |comments| && comments[k].comment.id == r.commentId &&
           comments[k].WorkerId() == Some(selectedChat.value.id) &&
           forall j :: 0 <= j < k ==> comments[j].WorkerId() != Some(selectedChat.value.id)
  {
    if Trim(replyText) == [] || selectedChat.None? || selectedChat.value.isGroup then Ignore
    else
      match FirstCommentOf(comments, selectedChat.value.id)
      case None => NoThread
      case Some(k) => SendReply(comments[k].comment.id, replyText)
  }

  // ---------------------------------------------------------------------
  // The visible chat list

  datatype ChatFilter = All | Unread | Groups

  /** The first `filter` of `filteredChatList`. */
  function ByFilter(chats: seq<Chat>, filter: ChatFilter, unread: map<Id, nat>): (r: seq<Chat>)
    ensures forall c :: c in r <==> (c in chats && !(!c.isGroup && c.name == UnknownWorkerName) && Selects(filter, c, unread))
    ensures forall c :: multiset(r)[c] == if Listed(filter, unread)(c) then multiset(chats)[c] else 0
  {
    Filter(chats, Listed(filter, unread))
  }

  /** The condition of the first `filter`. */
  function Listed(filter: ChatFilter, unread: map<Id, nat>): Chat -> bool {
    (c: Chat) => !(!c.isGroup && c.name == UnknownWorkerName) && Selects(filter, c, unread)
  }

  /** What each filter button keeps. */
  predicate Selects(filter: ChatFilter, c: Chat, unread: map<Id, nat>) {
    match filter
    case All => true
    case Unread => !c.isGroup && UnreadOf(unread, c.id) > 0
    case Groups => c.isGroup
  }

  /** The second `filter`: a case-insensitive substring match on the name. */
  function BySearch(chats: seq<Chat>, searchTerm: string): (r: seq<Chat>)
    ensures forall c :: c in r <==> c in chats && Includes(ToLower(c.name), ToLower(searchTerm))
    ensures forall c :: multiset(r)[c] == if Matches(searchTerm)(c) then multiset(chats)[c] else 0
  {
    Filter(chats, Matches(searchTerm))
  }

  /** The condition of the second `filter`. */
  function Matches(searchTerm: string): Chat -> bool {
    (c: Chat) => Includes(ToLower(c.name), ToLower(searchTerm))
  }

  /** Both conditions of `filteredChatList` at once. */
  function Shown(filter: ChatFilter, searchTerm: string, unread: map<Id, nat>): Chat -> bool {
    (c: Chat) => Listed(filter, unread)(c) && Matches(searchTerm)(c)
  }

  /** `filteredChatList`: entries of the chat list only, never a non-group
      "Unknown Worker". */
  function FilteredChatList(chatList: seq<Chat>, filter: ChatFilter, searchTerm: string, unread: map<Id, nat>): (r: seq<Chat>)
    ensures |r| <= |chatList|
    ensures forall c :: c in r ==> c in chatList
    ensures forall c :: c in r ==> c.isGroup || c.name != UnknownWorkerName
    ensures filter == Unread ==> forall c :: c in r ==> !c.isGroup && UnreadOf(unread, c.id) > 0
    ensures filter == Groups ==> forall c :: c in r ==> c.isGroup
    ensures forall c :: c in r ==> Includes(ToLower(c.name), ToLower(searchTerm))
    ensures forall c :: c in r <==>
      c in chatList && Listed(filter, unread)(c) && Includes(ToLower(c.name), ToLower(searchTerm))
    ensures forall c :: multiset(r)[c] == if Shown(filter, searchTerm, unread)(c) then multiset(chatList)[c] else 0
  {
    BySearch(ByFilter(chatList, filter, unread), searchTerm)
  }

  /** The visible list keeps the chat list's order: it is a subsequence. */
  lemma FilteredChatListOrder(chatList: seq<Chat>, filter: ChatFilter, searchTerm: string, unread: map<Id, nat>)
    ensures SubsequenceOf(FilteredChatList(chatList, filter, searchTerm, unread), chatList)
  {
    FilterFilter(chatList, Listed(filter, unread), Matches(searchTerm), Shown(filter, searchTerm, unread));
    FilterSubsequence(chatList, Shown(filter, searchTerm, unread));
  }

  /** An empty search term matches every name. */
  lemma EmptySearchMatchesAll(name: string)
    ensures Includes(ToLower(name), ToLower(""))
  {
    assert ToLower("") == [];
    assert ToLower(name)[..0] == [];
  }

  /** With an empty search box the search changes nothing: the visible list
      is exactly what the filter buttons keep. */
  lemma EmptySearchKeepsFiltered(chatList: seq<Chat>, filter: ChatFilter, unread: map<Id, nat>)
    ensures forall c :: c in FilteredChatList(chatList, filter, "", unread) <==>
      c in chatList && Listed(filter, unread)(c)
  {
    forall c | c in chatList ensures Includes(ToLower(c.name), ToLower("")) {
      EmptySearchMatchesAll(c.name);
    }
  }
}
