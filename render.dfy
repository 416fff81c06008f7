/**
 * What the bot shows for the list: the message text built by
 * `generateListText` and the inline keyboard built by `generateKeyboard`,
 * whose single button carries a `tick_<userId>_<timestamp>` payload.
 */
module Render {
  import opened Base
  import opened Strings
  import opened Numbers
  import opened Html

  /** One sign-up: who wrote `addlist`, under which name, and whether an admin has ticked it. */
  datatype Entry = Entry(name: string, userId: int, username: Option<string>, ticked: bool, timestamp: int)

  /** An inline keyboard button: its label and the data sent back when it is pressed. */
  datatype Button = Button(text: string, callbackData: string)

  /** Rows of buttons, as in Telegram's `inline_keyboard`. */
  type Keyboard = seq<seq<Button>>

  /**
   * The text a `forEach` over the entries accumulates from entry `lo` up to
   * (not including) entry `hi`, when entry `i` (0-based) contributes `line(i, es[i])`.
   */
  function Lines(es: seq<Entry>, lo: nat, hi: nat, line: (nat, Entry) -> string): string
    requires lo <= hi <= |es|
    decreases hi - lo
  {
    if lo == hi then "" else Lines(es, lo, hi - 1, line) + line(hi - 1, es[hi - 1])
  }

  /** The lines of consecutive ranges concatenate to the lines of the joined range. */
  lemma {:induction false} LinesSplit(es: seq<Entry>, lo: nat, mid: nat, hi: nat, line: (nat, Entry) -> string)
    requires lo <= mid <= hi <= |es|
    ensures Lines(es, lo, hi, line) == Lines(es, lo, mid, line) + Lines(es, mid, hi, line)
    decreases hi - mid
  {
    if mid < hi {
      LinesSplit(es, lo, mid, hi - 1, line);
      var x, y, z := Lines(es, lo, mid, line), Lines(es, mid, hi - 1, line), line(hi - 1, es[hi - 1]);
      Concat3(x, y, z);
    }
  }

  /** A range of one entry is that entry's line. */
  lemma LinesOne(es: seq<Entry>, k: nat, line: (nat, Entry) -> string)
    requires k < |es|
    ensures Lines(es, k, k + 1, line) == line(k, es[k])
  {
    assert Lines(es, k, k, line) == "";
  }

  /** Entry `k` contributes its own line, between the lines of the entries before it and those after it. */
  lemma LinesAt(es: seq<Entry>, k: nat, line: (nat, Entry) -> string)
    requires k < |es|
    ensures Lines(es, 0, |es|, line) == Lines(es, 0, k, line) + line(k, es[k]) + Lines(es, k + 1, |es|, line)
  {
    LinesSplit(es, 0, k + 1, |es|, line);
    LinesSplit(es, 0, k, k + 1, line);
    LinesOne(es, k, line);
  }

  /** The lines of a range depend only on the entries inside it. */
  lemma {:induction false} LinesAgree(a: seq<Entry>, b: seq<Entry>, lo: nat, hi: nat, line: (nat, Entry) -> string)
    requires lo <= hi <= |a| && hi <= |b|
    requires forall i | lo <= i < hi :: a[i] == b[i]
    ensures Lines(a, lo, hi, line) == Lines(b, lo, hi, line)
    decreases hi - lo
  {
    if lo < hi {
      LinesAgree(a, b, lo, hi - 1, line);
    }
  }

  // ---------------------------------------------------------------- list text

  const ListPlaceholder := "Waiting for names...\n<i>(Type 'addlist Name' to join)</i>"

  function ListHeader(title: string): string
  {
    "📋 <b>" + EscapeHtml(title) + "</b>\n\n"
  }

  /** Entry `i` (0-based) is shown as its 1-based position, its escaped name and a check mark once ticked. */
  function ListLine(i: nat, e: Entry): string
  {
    NatToString(i + 1) + ". " + EscapeHtml(e.name) + (if e.ticked then " ✅" else "") + "\n\n"
  }

  /** The list message: header, then the placeholder or one line per entry in list order. */
  function ListText(title: string, es: seq<Entry>): string
  {
    ListHeader(title) + if |es| == 0 then ListPlaceholder else Lines(es, 0, |es|, ListLine)
  }

  /** `generateListText`: the text is accumulated entry by entry. */
  method GenerateListText(title: string, es: seq<Entry>) returns (text: string)
    ensures text == ListText(title, es)
  {
    text := ListHeader(title);
    if |es| == 0 {
      text := text + ListPlaceholder;
    } else {
      for i := 0 to |es|
        invariant text == ListHeader(title) + Lines(es, 0, i, ListLine)
      {
        var safeName := EscapeHtml(es[i].name);
        var status := if es[i].ticked then " ✅" else "";
        var line := NatToString(i + 1) + ". " + safeName + status + "\n\n";
        assert line == ListLine(i, es[i]);
        Concat3(ListHeader(title), Lines(es, 0, i, ListLine), line);
        text := text + line;
      }
    }
  }

  /**
   * The list text starts with the header of the escaped title; with no
   * entries the placeholder follows, otherwise entry `k` contributes
   * exactly its own line, after the lines of the entries before it.
   */
  lemma ListTextEntry(title: string, es: seq<Entry>, k: nat)
    requires k < |es|
    ensures ListText(title, es)
         == ListHeader(title) + (Lines(es, 0, k, ListLine) + ListLine(k, es[k]) + Lines(es, k + 1, |es|, ListLine))
  {
    LinesAt(es, k, ListLine);
  }

  /** Appending an entry to a non-empty list appends its line to the text and changes nothing before it. */
  lemma ListTextAppend(title: string, es: seq<Entry>, e: Entry)
    requires es != []
    ensures ListText(title, es + [e]) == ListText(title, es) + ListLine(|es|, e)
  {
    var h, body := ListHeader(title), Lines(es, 0, |es|, ListLine);
    LinesAgree(es + [e], es, 0, |es|, ListLine);
    assert Lines(es + [e], 0, |es| + 1, ListLine) == body + ListLine(|es|, e);
    Concat3(h, body, ListLine(|es|, e));
  }

  lemma ListLineNoMarkup(i: nat, e: Entry)
    ensures NoMarkup(ListLine(i, e))
  {
    var digits := NatToString(i + 1);
    EscapeHtmlNoMarkup(e.name);
    NoMarkupConcat(digits, ". ");
    NoMarkupConcat(digits + ". ", EscapeHtml(e.name));
    var status := if e.ticked then " ✅" else "";
    NoMarkupConcat(digits + ". " + EscapeHtml(e.name), status);
    NoMarkupConcat(digits + ". " + EscapeHtml(e.name) + status, "\n\n");
  }

  lemma {:induction false} ListLinesNoMarkup(es: seq<Entry>, lo: nat, hi: nat)
    requires lo <= hi <= |es|
    ensures NoMarkup(Lines(es, lo, hi, ListLine))
    decreases hi - lo
  {
    if lo < hi {
      ListLineNoMarkup(hi - 1, es[hi - 1]);
      ListLinesNoMarkup(es, lo, hi - 1);
      NoMarkupConcat(Lines(es, lo, hi - 1, ListLine), ListLine(hi - 1, es[hi - 1]));
    }
  }

  /**
   * User text cannot inject markup: in a non-empty list the only markup
   * characters are those of the fixed `<b>`…`</b>` around the title.
   */
  lemma ListTextMarkupOnlyAroundTitle(title: string, es: seq<Entry>)
    requires es != []
    ensures exists t, body :: ListText(title, es) == "📋 <b>" + t + "</b>\n\n" + body && NoMarkup(t) && NoMarkup(body)
  {
    EscapeHtmlNoMarkup(title);
    ListLinesNoMarkup(es, 0, |es|);
    var t, body := EscapeHtml(title), Lines(es, 0, |es|, ListLine);
    assert ListText(title, es) == "📋 <b>" + t + "</b>\n\n" + body;
  }

  // ---------------------------------------------------------------- keyboard

  /** `listData.find(item => !item.ticked)`, as a position. */
  function FirstUnticked(es: seq<Entry>): (k: Option<nat>)
    ensures k.Some? ==> k.value < |es| && !es[k.value].ticked && forall j | 0 <= j < k.value :: es[j].ticked
    ensures k.None? ==> forall j | 0 <= j < |es| :: es[j].ticked
    decreases |es|
  {
    if es == [] then None
    else if !es[0].ticked then Some(0)
    else match FirstUnticked(es[1..])
      case None => None
      case Some(j) => Some(j + 1)
  }

  /** The callback data `tick_<userId>_<timestamp>`. */
  function TickPayload(userId: int, timestamp: int): string
  {
    "tick_" + IntToString(userId) + "_" + IntToString(timestamp)
  }

  /** The press handler's reading of callback data: `parseInt` of the second and third `_`-separated parts. */
  function ParseTickPayload(data: string): (Option<int>, Option<int>)
  {
    var parts := Split(data, '_');
    (if |parts| > 1 then ParseInt(parts[1]) else None,
     if |parts| > 2 then ParseInt(parts[2]) else None)
  }

  /** The button payload is recognised as a tick and parses back to the same (userId, timestamp) pair. */
  lemma TickPayloadRoundTrip(userId: int, timestamp: int)
    ensures StartsWith(TickPayload(userId, timestamp), "tick_")
    ensures ParseTickPayload(TickPayload(userId, timestamp)) == (Some(userId), Some(timestamp))
  {
    var a, b := IntToString(userId), IntToString(timestamp);
    IntToStringPlain(userId);
    IntToStringPlain(timestamp);
    TickPayloadSplit(a, b);
    IntToStringRoundTrip(userId);
    IntToStringRoundTrip(timestamp);
  }

  /** A printed integer contains no `_`. */
  lemma IntToStringPlain(i: int)
    ensures '_' !in IntToString(i)
  {
  }

  /** Around two `_`-free parts, the payload starts with `tick_` and splits into the word and the two parts. */
  lemma TickPayloadSplit(a: string, b: string)
    requires '_' !in a && '_' !in b
    ensures StartsWith("tick_" + a + "_" + b, "tick_")
    ensures Split("tick_" + a + "_" + b, '_') == ["tick", a, b]
  {
    var word := "tick";
    assert '_' !in word;
    var data := "tick_" + a + "_" + b;
    assert data == word + ['_'] + (a + ['_'] + b);
    assert data[..5] == "tick_";
    SplitPrefixed(word, '_', a + ['_'] + b);
    SplitPrefixed(a, '_', b);
  }

  /** `generateKeyboard`: one button for the first unticked entry while the list is active, none otherwise. */
  function ListKeyboard(active: bool, es: seq<Entry>): Keyboard
  {
    if !active then []
    else match FirstUnticked(es)
      case None => []
      case Some(k) => [[Button("Tick " + es[k].name, TickPayload(es[k].userId, es[k].timestamp))]]
  }

  /**
   * The keyboard is empty exactly when the list is inactive or every entry
   * is ticked; otherwise it is one button for the earliest unticked entry.
   */
  lemma ListKeyboardSpec(active: bool, es: seq<Entry>)
    ensures ListKeyboard(active, es) == [] <==> !active || forall j | 0 <= j < |es| :: es[j].ticked
    ensures forall k | 0 <= k < |es| && !es[k].ticked && (forall j | 0 <= j < k :: es[j].ticked) ::
              active ==> ListKeyboard(active, es)
                         == [[Button("Tick " + es[k].name, TickPayload(es[k].userId, es[k].timestamp))]]
  {
  }
}
