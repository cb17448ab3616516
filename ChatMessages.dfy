/**
 * The chat message record: how a message is shown once deleted, the
 * message-type predicates, and the scope that keeps the rows that are not
 * deleted.
 */
module ChatMessages {

  /** A row of `chat_messages` (the columns the model reads). */
  datatype Message = Message(id: nat, userId: nat, chatRoomId: nat, message: string, messageType: string,
                             isEdited: bool, isDeleted: bool)

  const DeletedPlaceholder := "[Message deleted]"

  /** The `formatted_message` accessor: the placeholder for a deleted message, the stored text otherwise. */
  function FormattedMessage(m: Message): (r: string)
    ensures m.isDeleted ==> r == DeletedPlaceholder
    ensures !m.isDeleted ==> r == m.message
  {
    if m.isDeleted then DeletedPlaceholder else m.message
  }

  /** `isSystemMessage`: the type is exactly "system". */
  predicate IsSystemMessage(m: Message) {
    m.messageType == "system"
  }

  /** `isUserMessage`: the type is exactly "text". */
  predicate IsUserMessage(m: Message) {
    m.messageType == "text"
  }

  /** `scopeNotDeleted`: the rows whose `is_deleted` is false, in their order. */
  function NotDeleted(ms: seq<Message>): (r: seq<Message>)
    ensures |r| <= |ms|
    ensures forall i :: 0 <= i < |r| ==> !r[i].isDeleted && r[i] in ms
    ensures forall m :: m in ms && !m.isDeleted ==> m in r
  {
    if ms == [] then []
    else NotDeleted(ms[..|ms| - 1]) + (if ms[|ms| - 1].isDeleted then [] else [ms[|ms| - 1]])
  }

  /** The scope drops nothing from a list without deleted rows, and keeps nothing of a list of deleted ones. */
  lemma NotDeletedExtremes(ms: seq<Message>)
    ensures (forall i :: 0 <= i < |ms| ==> !ms[i].isDeleted) ==> NotDeleted(ms) == ms
    ensures (forall i :: 0 <= i < |ms| ==> ms[i].isDeleted) ==> NotDeleted(ms) == []
  {
    if forall i :: 0 <= i < |ms| ==> !ms[i].isDeleted {
      NotDeletedKeepsAll(ms);
    }
    if forall i :: 0 <= i < |ms| ==> ms[i].isDeleted {
      NotDeletedDropsAll(ms);
    }
  }

  lemma {:induction false} NotDeletedKeepsAll(ms: seq<Message>)
    requires forall i :: 0 <= i < |ms| ==> !ms[i].isDeleted
    ensures NotDeleted(ms) == ms
  {
    if ms != [] {
      NotDeletedKeepsAll(ms[..|ms| - 1]);
      assert ms == ms[..|ms| - 1] + [ms[|ms| - 1]];
    }
  }

  lemma {:induction false} NotDeletedDropsAll(ms: seq<Message>)
    requires forall i :: 0 <= i < |ms| ==> ms[i].isDeleted
    ensures NotDeleted(ms) == []
  {
    if ms != [] {
      NotDeletedDropsAll(ms[..|ms| - 1]);
    }
  }

  /** Filtering twice is filtering once. */
  lemma NotDeletedIdempotent(ms: seq<Message>)
    ensures NotDeleted(NotDeleted(ms)) == NotDeleted(ms)
  {
    NotDeletedExtremes(NotDeleted(ms));
  }

  /** The scope distributes over a concatenation, so it keeps the rows' order. */
  lemma {:induction false} NotDeletedAppend(a: seq<Message>, b: seq<Message>)
    ensures NotDeleted(a + b) == NotDeleted(a) + NotDeleted(b)
  {
    if b == [] {
      assert a + b == a;
    } else {
      assert (a + b)[..|a + b| - 1] == a + b[..|b| - 1];
      assert (a + b)[|a + b| - 1] == b[|b| - 1];
      NotDeletedAppend(a, b[..|b| - 1]);
    }
  }

  /** No message is both a system and a user message; images and files are neither. */
  lemma MessageKinds(m: Message)
    ensures !(IsSystemMessage(m) && IsUserMessage(m))
    ensures m.messageType == "image" || m.messageType == "file" ==> !IsSystemMessage(m) && !IsUserMessage(m)
  {
    if IsSystemMessage(m) {
      assert m.messageType[0] == 's';
    }
    if m.messageType == "image" || m.messageType == "file" {
      assert m.messageType[0] == 'i' || m.messageType[0] == 'f';
    }
  }
}
