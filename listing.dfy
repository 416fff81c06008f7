/**
 * The sign-up session of the bot: who may run it, when an event is too
 * old to act on, how `addlist` and a tick-button press change the list,
 * and the single session object whose fields the handlers update in place.
 */
module Listing {
  import opened Base
  import opened Strings
  import opened Numbers
  import opened Render
  import opened Report

  // ---------------------------------------------------------------- permissions and freshness

  /** The fixed admin user ids. */
  const AdminIds: set<int> := {
    7096965198, 6429023830, 8000227591, 8487113041, 6005670247,
    7916211456, 8076555425, 5248658367, 8514126036, 7476658546,
    6308953872, 7409280726, 6868586610, 6463420275, 5078407286
  }

  /** The user who receives the session report. */
  const OwnerId: int := 7096965198

  predicate IsAdmin(id: int)
  {
    id in AdminIds
  }

  /**
   * An event older than 30 seconds: `Date.now() / 1000 - msg.date > 30`,
   * with the clock in milliseconds and the message date in seconds.
   */
  predicate IsStale(nowMs: int, date: int)
  {
    nowMs - 1000 * date > 30000
  }

  /** The integer test is exactly the source's test on seconds. */
  lemma IsStaleInSeconds(nowMs: int, date: int)
    ensures IsStale(nowMs, date) <==> (nowMs as real) / 1000.0 - (date as real) > 30.0
  {
    assert (nowMs as real) / 1000.0 - (date as real) == ((nowMs - 1000 * date) as real) / 1000.0;
  }

  // ---------------------------------------------------------------- addlist

  /**
   * The name an `addlist` message signs up: the lower-cased text must
   * start with `addlist`, and the name is what `split(' ').slice(1).join(' ')`
   * gives; `None` when the handler ignores the message.
   */
  function AddCommandName(text: string): Option<string>
  {
    if !StartsWith(Lower(text), "addlist") then None
    else
      var parts := Split(text, ' ');
      if |parts| < 2 then None else Some(Join(parts[1..], ' '))
  }

  /**
   * A message signs up a name exactly when it starts with `addlist` in any
   * letter case and contains a space; the name is everything after the
   * first space, possibly empty, and that space comes after the command word.
   */
  lemma AddCommandNameSpec(text: string)
    ensures AddCommandName(text).Some? <==> StartsWith(Lower(text), "addlist") && ' ' in text
    ensures StartsWith(Lower(text), "addlist") && ' ' in text ==>
              IndexOf(text, ' ') >= 7 && AddCommandName(text) == Some(text[IndexOf(text, ' ') + 1..])
  {
    if StartsWith(Lower(text), "addlist") && ' ' in text {
      SplitTail(text, ' ');
      SplitAtFirst(text, ' ');
      CommandWordHasNoSpace(text);
    }
  }

  lemma CommandWordHasNoSpace(text: string)
    requires StartsWith(Lower(text), "addlist")
    ensures forall k | 0 <= k < 7 :: text[k] != ' '
  {
    forall k | 0 <= k < 7
      ensures text[k] != ' '
    {
      assert Lower(text)[k] == "addlist"[k];
    }
  }

  /** `msg.from.username || null`: an empty username is stored as none. */
  function StoredUsername(username: Option<string>): Option<string>
  {
    if username == Some("") then None else username
  }

  /** Some entry of the list belongs to the user (`listData.find(u => u.userId === userId)`). */
  predicate HasUser(es: seq<Entry>, userId: int)
  {
    exists j | 0 <= j < |es| :: es[j].userId == userId
  }

  datatype AddResult = AlreadyQueued | Appended(entries: seq<Entry>)

  /**
   * The list after an `addlist` by `userId` at `timestamp`: an admin is
   * always appended; anyone else only if no entry of theirs exists yet,
   * ticked or not.
   */
  function AddEntry(es: seq<Entry>, name: string, userId: int, username: Option<string>, timestamp: int): AddResult
  {
    if !IsAdmin(userId) && HasUser(es, userId) then AlreadyQueued
    else Appended(es + [Entry(name, userId, StoredUsername(username), false, timestamp)])
  }

  /**
   * An add is refused exactly for a non-admin who already has an entry;
   * otherwise one unticked entry with the given fields is appended at the
   * end and the earlier entries are left as they were.
   */
  lemma AddEntrySpec(es: seq<Entry>, name: string, userId: int, username: Option<string>, timestamp: int)
    ensures AddEntry(es, name, userId, username, timestamp).AlreadyQueued?
            <==> !IsAdmin(userId) && exists j | 0 <= j < |es| :: es[j].userId == userId
    ensures AddEntry(es, name, userId, username, timestamp).Appended? ==>
              var r := AddEntry(es, name, userId, username, timestamp).entries;
              |r| == |es| + 1 && r[..|es|] == es && !r[|es|].ticked
              && r[|es|].name == name && r[|es|].userId == userId && r[|es|].timestamp == timestamp
              && r[|es|].username == StoredUsername(username)
  {
  }

  /** No two entries share a user id unless that user is an admin. */
  predicate NonAdminUnique(es: seq<Entry>)
  {
    forall i, j | 0 <= i < j < |es| :: es[i].userId == es[j].userId ==> IsAdmin(es[i].userId)
  }

  /** Adds keep the list free of repeated non-admin users. */
  lemma AddEntryKeepsNonAdminUnique(es: seq<Entry>, name: string, userId: int, username: Option<string>, timestamp: int)
    requires NonAdminUnique(es)
    ensures AddEntry(es, name, userId, username, timestamp).Appended? ==>
              NonAdminUnique(AddEntry(es, name, userId, username, timestamp).entries)
  {
    var r := AddEntry(es, name, userId, username, timestamp);
    if r.Appended? {
      var n := r.entries;
      forall i, j | 0 <= i < j < |n| && n[i].userId == n[j].userId
        ensures IsAdmin(n[i].userId)
      {
      }
    }
  }

  // ---------------------------------------------------------------- tick button

  /** `u.userId === userId && u.timestamp === timestamp`; a `NaN` (None) matches nothing. */
  predicate Matches(e: Entry, userId: Option<int>, timestamp: Option<int>)
  {
    userId == Some(e.userId) && timestamp == Some(e.timestamp)
  }

  /** `listData.find(...)` on the parsed pair, as a position: the first matching entry. */
  function FindEntry(es: seq<Entry>, userId: Option<int>, timestamp: Option<int>): (k: Option<nat>)
    ensures k.Some? ==> k.value < |es| && Matches(es[k.value], userId, timestamp)
                        && forall j | 0 <= j < k.value :: !Matches(es[j], userId, timestamp)
    ensures k.None? ==> forall j | 0 <= j < |es| :: !Matches(es[j], userId, timestamp)
    decreases |es|
  {
    if es == [] then None
    else if Matches(es[0], userId, timestamp) then Some(0)
    else match FindEntry(es[1..], userId, timestamp)
      case None => None
      case Some(j) => Some(j + 1)
  }

  /** The entry a press ticks: the first match, when it is not ticked yet. */
  function TickTarget(es: seq<Entry>, userId: Option<int>, timestamp: Option<int>): Option<nat>
  {
    match FindEntry(es, userId, timestamp)
    case Some(k) => if es[k].ticked then None else Some(k)
    case None => None
  }

  /** The entries after a press whose payload parsed to (`userId`, `timestamp`). */
  function PressTick(es: seq<Entry>, userId: Option<int>, timestamp: Option<int>): seq<Entry>
  {
    match TickTarget(es, userId, timestamp)
    case Some(k) => es[k := es[k].(ticked := true)]
    case None => es
  }

  /**
   * A press keeps the length, the order and every field but `ticked`; an
   * entry is ticked afterwards exactly when it was before or it is the
   * first entry matching both the user id and the timestamp.
   */
  lemma PressTickSpec(es: seq<Entry>, userId: Option<int>, timestamp: Option<int>)
    ensures |PressTick(es, userId, timestamp)| == |es|
    ensures forall j | 0 <= j < |es| ::
              PressTick(es, userId, timestamp)[j] == es[j].(ticked := PressTick(es, userId, timestamp)[j].ticked)
    ensures forall j | 0 <= j < |es| ::
              PressTick(es, userId, timestamp)[j].ticked
              <==> es[j].ticked || (Matches(es[j], userId, timestamp)
                                    && forall i | 0 <= i < j :: !Matches(es[i], userId, timestamp))
  {
    var f := FindEntry(es, userId, timestamp);
    forall j | 0 <= j < |es| && Matches(es[j], userId, timestamp)
      ensures f.Some? && (f.value == j <==> forall i | 0 <= i < j :: !Matches(es[i], userId, timestamp))
    {
    }
  }

  /** Pressing the same button twice has the effect of pressing it once. */
  lemma PressTickIdempotent(es: seq<Entry>, userId: Option<int>, timestamp: Option<int>)
    ensures PressTick(PressTick(es, userId, timestamp), userId, timestamp) == PressTick(es, userId, timestamp)
  {
    var once := PressTick(es, userId, timestamp);
    PressTickSpec(es, userId, timestamp);
    PressTickSpec(once, userId, timestamp);
    assert forall j | 0 <= j < |es| :: Matches(once[j], userId, timestamp) == Matches(es[j], userId, timestamp);
    var twice := PressTick(once, userId, timestamp);
    assert forall j | 0 <= j < |es| :: twice[j] == once[j];
  }

  /** A press keeps the list free of repeated non-admin users. */
  lemma PressTickKeepsNonAdminUnique(es: seq<Entry>, userId: Option<int>, timestamp: Option<int>)
    requires NonAdminUnique(es)
    ensures NonAdminUnique(PressTick(es, userId, timestamp))
  {
    PressTickSpec(es, userId, timestamp);
  }

  /**
   * Pressing the keyboard's button ticks the first unticked entry, and
   * nothing else, as long as no earlier entry carries the same
   * (userId, timestamp) pair.
   */
  lemma ButtonTicksFirstUnticked(es: seq<Entry>, k: nat)
    requires k < |es| && !es[k].ticked && forall j | 0 <= j < k :: es[j].ticked
    requires forall j | 0 <= j < k :: es[j].userId != es[k].userId || es[j].timestamp != es[k].timestamp
    ensures ListKeyboard(true, es) != [] && |ListKeyboard(true, es)[0]| == 1
    ensures StartsWith(ListKeyboard(true, es)[0][0].callbackData, "tick_")
    ensures var p := ParseTickPayload(ListKeyboard(true, es)[0][0].callbackData);
            PressTick(es, p.0, p.1) == es[k := es[k].(ticked := true)]
  {
    ListKeyboardSpec(true, es);
    TickPayloadRoundTrip(es[k].userId, es[k].timestamp);
    var u, t := Some(es[k].userId), Some(es[k].timestamp);
    assert FindEntry(es, u, t) == Some(k) by {
      var f := FindEntry(es, u, t);
      assert f.Some? by { assert Matches(es[k], u, t); }
      assert !(f.value < k) && !(f.value > k);
    }
  }

  /** In a list that keeps the uniqueness rule, a non-admin's entry has no earlier twin. */
  lemma NonAdminEntryHasNoTwin(es: seq<Entry>, k: nat)
    requires NonAdminUnique(es) && k < |es| && !IsAdmin(es[k].userId)
    ensures forall j | 0 <= j < k :: es[j].userId != es[k].userId || es[j].timestamp != es[k].timestamp
  {
  }

  /**
   * An earlier entry with the same (userId, timestamp) pair as the first
   * unticked one (an admin signing up twice within one millisecond) leaves
   * the button stuck: it targets entry `k`, but a press finds the earlier
   * twin, already ticked, and changes nothing.
   */
  lemma TwinEntriesLeaveButtonStuck(es: seq<Entry>, k: nat, j: nat)
    requires k < |es| && !es[k].ticked && forall i | 0 <= i < k :: es[i].ticked
    requires j < k && es[j].userId == es[k].userId && es[j].timestamp == es[k].timestamp
    ensures ListKeyboard(true, es) != [] && |ListKeyboard(true, es)[0]| == 1
    ensures var p := ParseTickPayload(ListKeyboard(true, es)[0][0].callbackData);
            PressTick(es, p.0, p.1) == es
  {
    ListKeyboardSpec(true, es);
    TickPayloadRoundTrip(es[k].userId, es[k].timestamp);
    var u, t := Some(es[k].userId), Some(es[k].timestamp);
    assert Matches(es[j], u, t);
    var f := FindEntry(es, u, t);
    assert f.Some? && f.value <= j;
    assert TickTarget(es, u, t) == None;
  }

  /**
   * Pressing the keyboard's button ticks the first unticked entry exactly
   * when no earlier entry shares its (userId, timestamp) pair; otherwise
   * the press changes nothing.
   */
  lemma ButtonTicksIffNoTwin(es: seq<Entry>, k: nat)
    requires k < |es| && !es[k].ticked && forall i | 0 <= i < k :: es[i].ticked
    ensures ListKeyboard(true, es) != [] && |ListKeyboard(true, es)[0]| == 1
    ensures var p := ParseTickPayload(ListKeyboard(true, es)[0][0].callbackData);
            (PressTick(es, p.0, p.1) == es[k := es[k].(ticked := true)]
             <==> forall j | 0 <= j < k :: es[j].userId != es[k].userId || es[j].timestamp != es[k].timestamp)
  {
    ListKeyboardSpec(true, es);
    var p := ParseTickPayload(ListKeyboard(true, es)[0][0].callbackData);
    if forall j | 0 <= j < k :: es[j].userId != es[k].userId || es[j].timestamp != es[k].timestamp {
      ButtonTicksFirstUnticked(es, k);
    } else {
      var j :| 0 <= j < k && es[j].userId == es[k].userId && es[j].timestamp == es[k].timestamp;
      TwinEntriesLeaveButtonStuck(es, k, j);
      assert es[k := es[k].(ticked := true)][k].ticked;
    }
  }

  // ---------------------------------------------------------------- the session object

  /** A message the bot sends. */
  datatype Reply = Reply(chatId: int, text: string)

  /** An edit of the list message. */
  datatype Edit = Edit(chatId: Option<int>, messageId: Option<int>, text: string, keyboard: Keyboard)

  datatype StartOutcome = StartIgnored | StartRefused(reply: Reply) | Started(text: string, keyboard: Keyboard)
  datatype EndOutcome = EndIgnored | EndRefused(reply: Reply) | Ended(report: Reply, lastEdit: Edit, notice: Reply)
  datatype AddOutcome = AddIgnored | AddRefused(reply: Reply) | AddAccepted
  datatype PressOutcome = NotAnswered | Answered | AnsweredWithAlert(alert: string)

  const SessionOngoing := "ongoing session listing detected, use /endlist to end current one."
  const NoActiveSession := "No active session to stop."
  const ListingStopped := "listing stopped"
  const AlreadyInQueue := "you are already is the queue"
  const ClosedSuffix := "\n🛑 <b>Session Closed</b>"

  /** `match[1] || "New List"`: the command's argument unless absent or empty. */
  function TitleFrom(argument: Option<string>): (t: string)
    ensures t != ""
    ensures argument.Some? && argument.value != "" ==> t == argument.value
    ensures argument.None? || argument.value == "" ==> t == "New List"
  {
    if argument.Some? && argument.value != "" then argument.value else "New List"
  }

  /** The bot's single sign-up session and its pending list-message refresh. */
  class Session {
    var active: bool
    var entries: seq<Entry>
    var title: string
    var chatId: Option<int>
    var messageId: Option<int>
    /** A refresh of the list message is scheduled and has not fired yet. */
    var pushPending: bool

    ghost predicate Valid()
      reads this
    {
      NonAdminUnique(entries) && (!active ==> entries == [] && !pushPending)
    }

    constructor ()
      ensures Valid()
      ensures !active && entries == [] && title == "Event List"
      ensures chatId == None && messageId == None && !pushPending
    {
      active := false;
      entries := [];
      title := "Event List";
      chatId := None;
      messageId := None;
      pushPending := false;
    }

    /**
     * `/startlist [title]` from `senderId` in `chat`; `sentMessageId` is the
     * id of the list message the bot sends when the session opens.
     */
    method StartList(nowMs: int, date: int, senderId: int, chat: int, argument: Option<string>, sentMessageId: int)
      returns (outcome: StartOutcome)
      requires Valid()
      modifies this
      ensures Valid()
      ensures IsStale(nowMs, date) || !IsAdmin(senderId) ==> outcome == StartIgnored && unchanged(this)
      ensures !IsStale(nowMs, date) && IsAdmin(senderId) && old(active) ==>
                outcome == StartRefused(Reply(chat, SessionOngoing)) && unchanged(this)
      ensures !IsStale(nowMs, date) && IsAdmin(senderId) && !old(active) ==>
                active && entries == [] && title == TitleFrom(argument)
                && chatId == Some(chat) && messageId == Some(sentMessageId) && !pushPending
                && outcome == Started(ListText(title, []), [])
    {
      if IsStale(nowMs, date) {
        return StartIgnored;
      }
      if !IsAdmin(senderId) {
        return StartIgnored;
      }
      if active {
        return StartRefused(Reply(chat, SessionOngoing));
      }
      active := true;
      entries := [];
      title := TitleFrom(argument);
      chatId := Some(chat);
      var text := GenerateListText(title, entries);
      outcome := Started(text, ListKeyboard(active, entries));
      messageId := Some(sentMessageId);
    }

    /**
     * `/endlist` from `senderId` in `chat`; `time` is the localized time
     * of closing that heads the report.
     */
    method EndList(nowMs: int, date: int, senderId: int, chat: int, time: string) returns (outcome: EndOutcome)
      requires Valid()
      modifies this
      ensures Valid()
      ensures IsStale(nowMs, date) || !IsAdmin(senderId) ==> outcome == EndIgnored && unchanged(this)
      ensures !IsStale(nowMs, date) && IsAdmin(senderId) && !old(active) ==>
                outcome == EndRefused(Reply(chat, NoActiveSession)) && unchanged(this)
      ensures !IsStale(nowMs, date) && IsAdmin(senderId) && old(active) ==>
                !active && entries == [] && !pushPending
                && title == old(title) && chatId == old(chatId) && messageId == old(messageId)
                && outcome == Ended(Reply(OwnerId, ReportText(time, old(title), old(entries))),
                                    Edit(chatId, messageId, ListText(old(title), old(entries)) + ClosedSuffix, []),
                                    Reply(chat, ListingStopped))
    {
      if IsStale(nowMs, date) {
        return EndIgnored;
      }
      if !IsAdmin(senderId) {
        return EndIgnored;
      }
      if !active {
        return EndRefused(Reply(chat, NoActiveSession));
      }
      var report := BuildReport(time, title, entries);
      active := false;
      pushPending := false;
      var text := GenerateListText(title, entries);
      var lastEdit := Edit(chatId, messageId, text + ClosedSuffix, []);
      entries := [];
      outcome := Ended(Reply(OwnerId, report), lastEdit, Reply(chat, ListingStopped));
    }

    /**
     * A text message from `senderId` (with `username`) in `chat`; `text`
     * is absent for messages without text. `nowMs` is both the clock for
     * the freshness test and the new entry's timestamp.
     */
    method AddList(nowMs: int, date: int, text: Option<string>, senderId: int, username: Option<string>, chat: int)
      returns (outcome: AddOutcome)
      requires Valid()
      modifies this
      ensures Valid()
      ensures !old(active) || text.None? || text.value == "" || IsStale(nowMs, date)
              || AddCommandName(text.value).None? ==>
                outcome == AddIgnored && unchanged(this)
      ensures old(active) && text.Some? && text.value != "" && !IsStale(nowMs, date)
              && AddCommandName(text.value).Some? ==>
                var r := AddEntry(old(entries), AddCommandName(text.value).value, senderId, username, nowMs);
                && active && title == old(title) && chatId == old(chatId) && messageId == old(messageId)
                && (r.AlreadyQueued? ==> outcome == AddRefused(Reply(chat, AlreadyInQueue)) && unchanged(this))
                && (r.Appended? ==> outcome == AddAccepted && entries == r.entries && pushPending)
    {
      if !active || text.None? || text.value == "" {
        return AddIgnored;
      }
      if IsStale(nowMs, date) {
        return AddIgnored;
      }
      var lowered := Lower(text.value);
      if !StartsWith(lowered, "addlist") {
        return AddIgnored;
      }
      var parts := Split(text.value, ' ');
      if |parts| < 2 {
        return AddIgnored;
      }
      var name := Join(parts[1..], ' ');
      var stored := StoredUsername(username);
      var entry := Entry(name, senderId, stored, false, nowMs);
      AddEntryKeepsNonAdminUnique(entries, name, senderId, username, nowMs);
      if IsAdmin(senderId) {
        entries := entries + [entry];
      } else {
        if HasUser(entries, senderId) {
          return AddRefused(Reply(chat, AlreadyInQueue));
        }
        entries := entries + [entry];
      }
      pushPending := true;
      outcome := AddAccepted;
    }

    /** A press of an inline button by `presserId` carrying `data`. */
    method PressButton(presserId: int, data: string) returns (outcome: PressOutcome)
      requires Valid()
      modifies this
      ensures Valid()
      ensures !old(active) ==> outcome == AnsweredWithAlert("Only Host!") && unchanged(this)
      ensures old(active) && !IsAdmin(presserId) ==> outcome == AnsweredWithAlert("Admins Only!") && unchanged(this)
      ensures old(active) && IsAdmin(presserId) && !StartsWith(data, "tick_") ==>
                outcome == NotAnswered && unchanged(this)
      ensures old(active) && IsAdmin(presserId) && StartsWith(data, "tick_") ==>
                var p := ParseTickPayload(data);
                && outcome == Answered && active
                && entries == PressTick(old(entries), p.0, p.1)
                && pushPending == (old(pushPending) || TickTarget(old(entries), p.0, p.1).Some?)
                && title == old(title) && chatId == old(chatId) && messageId == old(messageId)
    {
      if !active {
        return AnsweredWithAlert("Only Host!");
      }
      if !IsAdmin(presserId) {
        return AnsweredWithAlert("Admins Only!");
      }
      if !StartsWith(data, "tick_") {
        return NotAnswered;
      }
      var parts := Split(data, '_');
      var userId := if |parts| > 1 then ParseInt(parts[1]) else None;
      var timestamp := if |parts| > 2 then ParseInt(parts[2]) else None;
      var found := FindEntry(entries, userId, timestamp);
      PressTickKeepsNonAdminUnique(entries, userId, timestamp);
      if found.Some? && !entries[found.value].ticked {
        var k := found.value;
        entries := entries[k := entries[k].(ticked := true)];
        pushPending := true;
      }
      outcome := Answered;
    }

    /** The debounce timer fires: refresh the list message if the session is still open. */
    method FirePush() returns (edit: Option<Edit>)
      requires Valid()
      modifies this
      ensures Valid() && !pushPending
      ensures active == old(active) && entries == old(entries) && title == old(title)
      ensures chatId == old(chatId) && messageId == old(messageId)
      ensures edit == if old(pushPending) && active
                      then Some(Edit(chatId, messageId, ListText(title, entries), ListKeyboard(true, entries)))
                      else None
    {
      var pending := pushPending;
      pushPending := false;
      if !pending || !active {
        return None;
      }
      var text := GenerateListText(title, entries);
      edit := Some(Edit(chatId, messageId, text, ListKeyboard(active, entries)));
    }
  }
}
