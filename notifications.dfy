/**
 * In-app notifications: the message type, the display string, and the
 * read timestamp that `mark_as_read` sets once and never moves.
 */
module Notifications {
  import opened Wrappers

  /** A point in time; the clock reading is supplied by the caller. */
  type Timestamp = int

  datatype NotificationType = System | OpportunityUpdate

  /** The stored code of each type. */
  function TypeCode(t: NotificationType): string {
    match t
    case System => "SYSTEM"
    case OpportunityUpdate => "OPPORTUNITY_UPDATE"
  }

  /** The type a stored code names, if any. */
  function ParseType(code: string): (r: Option<NotificationType>)
    ensures r.Some? ==> TypeCode(r.value) == code
  {
    if code == "SYSTEM" then Some(System)
    else if code == "OPPORTUNITY_UPDATE" then Some(OpportunityUpdate)
    else None
  }

  const DefaultType: NotificationType := System

  /** Width of the stored type column. */
  const TypeMaxLength: nat := 20

  /** Every type round-trips through its code, and every code fits the column. */
  lemma TypeCodeRoundTrip(t: NotificationType)
    ensures ParseType(TypeCode(t)) == Some(t)
    ensures |TypeCode(t)| <= TypeMaxLength
  {
  }

  /** How many characters of the message the display string shows. */
  const PreviewLength: nat := 50

  /** `message[:50]`: the message cut to its first fifty characters. */
  function Preview(message: string): (p: string)
    ensures |p| <= PreviewLength && |p| <= |message|
    ensures p == message[..|p|]
    ensures |message| <= PreviewLength ==> p == message
    ensures |message| > PreviewLength ==> |p| == PreviewLength
  {
    if |message| <= PreviewLength then message else message[..PreviewLength]
  }

  /** `"{username} - {message[:50]}"`. */
  function Describe(username: string, message: string): (s: string)
    ensures |s| == |username| + 3 + |Preview(message)|
    ensures s[..|username|] == username
    ensures s[|username|..|username| + 3] == " - "
    ensures s[|username| + 3..] == message[..|s| - |username| - 3]
  {
    username + " - " + Preview(message)
  }

  /** A short message is shown whole. */
  lemma ShortMessageShownWhole(username: string, message: string)
    requires |message| <= PreviewLength
    ensures Describe(username, message) == username + " - " + message
  {
  }

  /** The read timestamp after a mark at time `now`: set if unset, otherwise kept. */
  function ReadAfterMark(readAt: Option<Timestamp>, now: Timestamp): (r: Option<Timestamp>)
    ensures r.Some?
    ensures readAt.Some? ==> r == readAt
    ensures readAt.None? ==> r == Some(now)
  {
    if readAt.None? then Some(now) else readAt
  }

  /** Marking twice is marking once, whatever the second clock reading. */
  lemma MarkIdempotent(readAt: Option<Timestamp>, first: Timestamp, second: Timestamp)
    ensures ReadAfterMark(ReadAfterMark(readAt, first), second) == ReadAfterMark(readAt, first)
  {
  }

  class Notification {
    /** Username of the recipient. */
    var recipient: string
    var message: string
    var kind: NotificationType
    var createdAt: Timestamp
    var readAt: Option<Timestamp>

    /** A new notification is unread. */
    constructor(recipient: string, message: string, createdAt: Timestamp, kind: NotificationType := DefaultType)
      ensures this.recipient == recipient && this.message == message
      ensures this.kind == kind && this.createdAt == createdAt
      ensures readAt == None
    {
      this.recipient := recipient;
      this.message := message;
      this.kind := kind;
      this.createdAt := createdAt;
      readAt := None;
    }

    predicate IsRead()
      reads this
    {
      readAt.Some?
    }

    /** `mark_as_read`: records `now` as the read time unless one is already recorded. */
    method MarkAsRead(now: Timestamp)
      modifies this`readAt
      ensures readAt == ReadAfterMark(old(readAt), now)
      ensures IsRead()
      ensures old(IsRead()) ==> readAt == old(readAt)
    {
      if readAt.None? {
        readAt := Some(now);
      }
    }

    /** `__str__`. */
    function ToString(): (s: string)
      reads this
      ensures s == Describe(recipient, message)
      ensures |s| <= |recipient| + 3 + PreviewLength
    {
      Describe(recipient, message)
    }
  }
}
