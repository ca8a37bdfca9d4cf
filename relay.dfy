/** One pass of the polling loop of `main` in main_bot.py: fetch a batch,
    send one reply per update that carries text, and move the `offset`
    cursor past every update of the batch. The HTTP calls are replaced by
    their data: the parsed response comes in as a parameter and the
    `send_message` calls come out as a log. */
module Relay {
  import opened Utf8
  import opened BotHandler

  function Max(a: int, b: int): int {
    if a < b then b else a
  }

  /** The cursor after `offset = max(offset, update['update_id'] + 1)` has
      run for each update of `updates`, in order. */
  function FinalCursor(offset: int, updates: seq<Update>): (r: int)
    ensures offset <= r
  {
    if updates == [] then offset
    else Max(FinalCursor(offset, updates[..|updates| - 1]), updates[|updates| - 1].updateId + 1)
  }

  /** The `send_message` calls made for `updates`, in the order made. */
  function Replies(updates: seq<Update>, manager: DialogueManager): (r: seq<Send>)
    ensures |r| <= |updates|
  {
    if updates == [] then []
    else
      var sent := match Outgoing(updates[|updates| - 1], manager)
                  case None => []
                  case Some(s) => [s];
      Replies(updates[..|updates| - 1], manager) + sent
  }

  /** The number of updates of `updates` that carry text. */
  function CountTexted(updates: seq<Update>): (n: nat)
    ensures n <= |updates|
  {
    if updates == [] then 0
    else CountTexted(updates[..|updates| - 1]) + (if HasText(updates[|updates| - 1]) then 1 else 0)
  }

  /** The cursor after a batch is `max(offset, max update_id + 1)`: it is
      past the old cursor and past every update of the batch, and it is
      either the old cursor or one past some update of the batch. */
  lemma {:induction false} CursorIsLeastUpperBound(offset: int, updates: seq<Update>)
    ensures offset <= FinalCursor(offset, updates)
    ensures forall i :: 0 <= i < |updates| ==> updates[i].updateId < FinalCursor(offset, updates)
    ensures FinalCursor(offset, updates) == offset
         || exists i :: 0 <= i < |updates| && FinalCursor(offset, updates) == updates[i].updateId + 1
  {
    if updates != [] {
      var n := |updates|;
      var prefix := updates[..n - 1];
      CursorIsLeastUpperBound(offset, prefix);
      assert forall i :: 0 <= i < n - 1 ==> updates[i] == prefix[i];
      var c := FinalCursor(offset, prefix);
      if c < updates[n - 1].updateId + 1 {
        assert FinalCursor(offset, updates) == updates[n - 1].updateId + 1;
      } else if c != offset {
        var i :| 0 <= i < n - 1 && c == prefix[i].updateId + 1;
        assert FinalCursor(offset, updates) == updates[i].updateId + 1;
      }
    }
  }

  /** Processing two batches one after the other is processing their
      concatenation: the cursor carries over and the sends are appended.
      Hence the cursor never decreases across passes of the loop. */
  lemma {:induction false} BatchesCompose(offset: int, first: seq<Update>, second: seq<Update>, manager: DialogueManager)
    ensures FinalCursor(FinalCursor(offset, first), second) == FinalCursor(offset, first + second)
    ensures Replies(first + second, manager) == Replies(first, manager) + Replies(second, manager)
  {
    if second == [] {
      assert first + second == first;
    } else {
      var n := |second|;
      BatchesCompose(offset, first, second[..n - 1], manager);
      assert (first + second)[..|first + second| - 1] == first + second[..n - 1];
      assert (first + second)[|first + second| - 1] == second[n - 1];
    }
  }

  /** An update without a message, or whose message has no text, is
      answered by no send, and the cursor still moves past it. */
  lemma SkippedUpdate(offset: int, updates: seq<Update>, update: Update, manager: DialogueManager)
    requires !HasText(update)
    ensures Replies(updates + [update], manager) == Replies(updates, manager)
    ensures FinalCursor(offset, updates + [update]) == Max(FinalCursor(offset, updates), update.updateId + 1)
    ensures update.updateId < FinalCursor(offset, updates + [update])
  {
  }

  /** There are exactly as many sends as updates with text. */
  lemma {:induction false} RepliesCount(updates: seq<Update>, manager: DialogueManager)
    ensures |Replies(updates, manager)| == CountTexted(updates)
  {
    if updates != [] {
      RepliesCount(updates[..|updates| - 1], manager);
    }
  }

  /** An update with text gets a send, addressed to its chat and holding
      its reply, numbered by the count of text-carrying updates before it. */
  lemma {:induction false} ReplyAt(updates: seq<Update>, manager: DialogueManager, i: nat)
    requires i < |updates| && HasText(updates[i])
    ensures CountTexted(updates[..i]) < |Replies(updates, manager)|
    ensures Replies(updates, manager)[CountTexted(updates[..i])] == ReplyFor(updates[i], manager)
  {
    var n := |updates|;
    var prefix := updates[..n - 1];
    RepliesCount(prefix, manager);
    if i < n - 1 {
      ReplyAt(prefix, manager, i);
      assert updates[..i] == prefix[..i];
    }
  }

  /** The count of text-carrying updates strictly grows past each of them,
      so sends come in the order of their updates. */
  lemma {:induction false} CountTextedOrdered(updates: seq<Update>, i: nat, j: nat)
    requires i < j <= |updates| && HasText(updates[i])
    ensures CountTexted(updates[..i]) < CountTexted(updates[..j])
  {
    var prefix := updates[..j];
    assert prefix[..j - 1] == updates[..j - 1];
    if i < j - 1 {
      CountTextedOrdered(updates, i, j - 1);
    } else {
      assert prefix[j - 1] == updates[i];
    }
  }

  /** Each update with text gets exactly one send, addressed to its chat
      and holding its reply; the send of the i-th update is the one
      numbered by the count of text-carrying updates before it, so the
      sends come in the order of their updates, and there are no others. */
  lemma RepliesCorrespond(updates: seq<Update>, manager: DialogueManager)
    ensures |Replies(updates, manager)| == CountTexted(updates)
    ensures forall i :: 0 <= i < |updates| && HasText(updates[i]) ==>
              CountTexted(updates[..i]) < |Replies(updates, manager)|
              && Replies(updates, manager)[CountTexted(updates[..i])] == ReplyFor(updates[i], manager)
    ensures forall i, j :: 0 <= i < j <= |updates| && HasText(updates[i]) ==>
              CountTexted(updates[..i]) < CountTexted(updates[..j])
  {
    RepliesCount(updates, manager);
    forall i | 0 <= i < |updates| && HasText(updates[i])
      ensures CountTexted(updates[..i]) < |Replies(updates, manager)|
      ensures Replies(updates, manager)[CountTexted(updates[..i])] == ReplyFor(updates[i], manager)
    {
      ReplyAt(updates, manager, i);
    }
    forall i, j | 0 <= i < j <= |updates| && HasText(updates[i])
      ensures CountTexted(updates[..i]) < CountTexted(updates[..j])
    {
      CountTextedOrdered(updates, i, j);
    }
  }

  /** Every send answers some update with text. */
  lemma {:induction false} EverySendAnswersAnUpdate(updates: seq<Update>, manager: DialogueManager, k: nat)
    requires k < |Replies(updates, manager)|
    ensures exists i :: 0 <= i < |updates| && HasText(updates[i])
              && Replies(updates, manager)[k] == ReplyFor(updates[i], manager)
  {
    RepliesCount(updates, manager);
    var i := FirstWithCount(updates, k);
    ReplyAt(updates, manager, i);
  }

  /** The index of the text-carrying update preceded by exactly `k` others. */
  lemma {:induction false} FirstWithCount(updates: seq<Update>, k: nat) returns (i: nat)
    requires k < CountTexted(updates)
    ensures i < |updates| && HasText(updates[i]) && CountTexted(updates[..i]) == k
  {
    var n := |updates|;
    var prefix := updates[..n - 1];
    if k < CountTexted(prefix) {
      i := FirstWithCount(prefix, k);
      assert updates[..i] == prefix[..i];
    } else {
      i := n - 1;
    }
  }

  /** The body of the `for update in updates` loop of `main`, run over one
      batch from cursor `offset`: returns the new cursor and the
      `send_message` calls made. */
  method ProcessBatch(offset: int, updates: seq<Update>, manager: DialogueManager)
    returns (cursor: int, sends: seq<Send>)
    ensures cursor == FinalCursor(offset, updates)
    ensures sends == Replies(updates, manager)
    ensures offset <= cursor
    ensures forall i :: 0 <= i < |updates| ==> updates[i].updateId < cursor
    ensures cursor == offset || exists i :: 0 <= i < |updates| && cursor == updates[i].updateId + 1
  {
    cursor, sends := offset, [];
    for i := 0 to |updates|
      invariant cursor == FinalCursor(offset, updates[..i])
      invariant sends == Replies(updates[..i], manager)
    {
      var update := updates[i];
      assert updates[..i + 1][..i] == updates[..i];
      match update.message {
        case None =>
        case Some(message) =>
          match message.text {
            case None =>
            case Some(text) =>
              if IsUnicode(text) {
                sends := sends + [Send(message.chatId, GetAnswer(text, manager))];
              } else {
                sends := sends + [Send(message.chatId, WeirdCharacters)];
              }
          }
      }
      cursor := Max(cursor, update.updateId + 1);
    }
    assert updates[..|updates|] == updates;
    CursorIsLeastUpperBound(offset, updates);
  }

  /** One pass of `while True` in `main` up to the sleep: the batch that
      `get_updates` makes of the parsed response, processed from `offset`.
      A response without `"result"` sends nothing and keeps the cursor. */
  method RelayIteration(offset: int, response: Option<seq<Update>>, manager: DialogueManager)
    returns (cursor: int, sends: seq<Send>)
    ensures cursor == FinalCursor(offset, GetUpdates(response))
    ensures sends == Replies(GetUpdates(response), manager)
    ensures offset <= cursor
    ensures response.None? ==> cursor == offset && sends == []
  {
    var updates := GetUpdates(response);
    cursor, sends := ProcessBatch(offset, updates, manager);
  }

  /** The start command from chat 42 in update 5, from cursor 0: one
      welcome to chat 42, and the cursor becomes 6. */
  lemma StartScenario(manager: DialogueManager)
    ensures var batch := [Update(5, Some(Message(42, Some(StartCommand))))];
            FinalCursor(0, batch) == 6 && Replies(batch, manager) == [Send(42, Welcome)]
  {
  }

  /** "hello" from chat 9 in update 7 with `SimpleDialogueManager`: one
      "Hello, world!" to chat 9, and the cursor becomes 8. */
  lemma HelloScenario()
    ensures var batch := [Update(7, Some(Message(9, Some("hello"))))];
            FinalCursor(0, batch) == 8 && Replies(batch, SimpleGenerateAnswer) == [Send(9, HelloWorld)]
  {
  }

  /** A text with a non-ASCII code point gets the warning whatever the
      manager, and the cursor still moves past its update. */
  lemma WeirdScenario(manager: DialogueManager)
    ensures var batch := [Update(3, Some(Message(1, Some("café"))))];
            FinalCursor(0, batch) == 4 && Replies(batch, manager) == [Send(1, WeirdCharacters)]
  {
  }
}
