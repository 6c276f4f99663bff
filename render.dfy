/**
  `changeMsg`: the text of the status message (a banner chosen by the open
  flag, then the week's schedule or a fallback line), the in-place sort of
  the calendar items, the edit request and how its error is classified.
  Time-zone conversion and Go's layout formatting are the parameters
  `fmtStart` (layout "2 Jan, Mon 15:04") and `fmtEnd` (layout "15:04").
*/
module Render {
  import opened Text
  import opened Schedule
  import opened Storage

  const ClosedBanner := "🤖 Сейчас закрыто\n\n"
  const OpenBanner := "🤘 Сейчас открыто\n📷 goo.gl/W9kUFN\n\n"
  const ScheduleHeading := "⏰ График работы:\n"
  const Fallback := "⏰ График работы лучше уточнить у @avp"
  /** The error text with which Telegram refuses an edit that changes nothing. */
  const NotModified := "Bad Request: message is not modified"

  /** The banner: the open one carries the webcam link; both end in a blank line. */
  function Header(open: bool): (h: string)
    ensures |h| > 2 && h[|h| - 2..] == "\n\n"
    ensures (h[0] == '🤘') <==> open
  {
    if open then OpenBanner else ClosedBanner
  }

  /** One schedule line: bullet, formatted start, `~`, formatted end, newline. */
  function Bullet(item: Item, fmtStart: int -> string, fmtEnd: int -> string): (line: string)
    ensures |line| >= 4 && line[..2] == "• " && line[|line| - 1] == '\n'
  {
    "• " + fmtStart(item.start) + "~" + fmtEnd(item.end) + "\n"
  }

  /** The lines appended one by one by the loop over the items. */
  function Lines(items: seq<Item>, fmtStart: int -> string, fmtEnd: int -> string): (text: string)
    ensures items != [] ==> |text| > 0 && text[|text| - 1] == '\n'
  {
    if items == [] then ""
    else Lines(items[..|items| - 1], fmtStart, fmtEnd) + Bullet(items[|items| - 1], fmtStart, fmtEnd)
  }

  /**
    The schedule part of the message for items already in display order:
    the fallback line when there are none, otherwise the heading and one
    line per item. Only the schedule ends in a newline.
  */
  function Body(items: seq<Item>, fmtStart: int -> string, fmtEnd: int -> string): (body: string)
    ensures |body| > 0
    ensures (body[|body| - 1] == '\n') <==> items != []
  {
    if items == [] then Fallback else ScheduleHeading + Lines(items, fmtStart, fmtEnd)
  }

  /** The edit payload `prefix + msg`. */
  function Payload(open: bool, items: seq<Item>, fmtStart: int -> string, fmtEnd: int -> string): (text: string)
    ensures |text| > |Header(open)| && text[..|Header(open)|] == Header(open)
  {
    Header(open) + Body(items, fmtStart, fmtEnd)
  }

  /** An edit reply is logged as a failure unless it is no error or the "not modified" error. */
  function EditFailure(err: Option<string>): (failed: bool)
    ensures failed ==> err.Some?
    ensures err == Some(NotModified) ==> !failed
    ensures err.Some? && err.value != NotModified ==> failed
  {
    err.Some? && err.value != NotModified
  }

  /** Appends one line per item of `items`, in array order, to `msg0`. */
  method AppendBullets(msg0: string, items: array<Item>, fmtStart: int -> string, fmtEnd: int -> string)
    returns (msg: string)
    ensures msg == msg0 + Lines(items[..], fmtStart, fmtEnd)
  {
    msg := msg0;
    for k := 0 to items.Length
      invariant msg == msg0 + Lines(items[..k], fmtStart, fmtEnd)
    {
      assert items[..k + 1][..k] == items[..k];
      msg := msg + Bullet(items[k], fmtStart, fmtEnd);
    }
    assert items[..items.Length] == items[..];
  }

  /**
    `changeMsg`: sorts the calendar items in place by start (only when
    there are some), builds the payload from the sorted items and sends it
    as an edit of the stored message through `edit`; `logged` tells whether
    the reply is reported as a failure.
  */
  method ChangeMsg(open: bool, items: array<Item>, storage: Record,
                   fmtStart: int -> string, fmtEnd: int -> string,
                   edit: (int64, int64, string) -> Option<string>)
    returns (payload: string, logged: bool)
    modifies items
    ensures SortedByStart(items[..]) && multiset(items[..]) == multiset(old(items[..]))
    ensures payload == Payload(open, items[..], fmtStart, fmtEnd)
    ensures logged == EditFailure(edit(storage.chatId, storage.messageId, payload))
  {
    var prefix := ClosedBanner;
    if open {
      prefix := OpenBanner;
    }
    var msg: string;
    if items.Length != 0 {
      SortByStart(items);
      msg := AppendBullets(ScheduleHeading, items, fmtStart, fmtEnd);
    } else {
      msg := Fallback;
    }
    payload := prefix + msg;
    var err := edit(storage.chatId, storage.messageId, payload);
    logged := err.Some? && err.value != NotModified;
  }

  // ---------------------------------------------------------------------
  // Layout of the schedule

  lemma {:induction false} LinesPrefix(items: seq<Item>, n: nat, fmtStart: int -> string, fmtEnd: int -> string)
    requires n <= |items|
    ensures Lines(items[..n], fmtStart, fmtEnd) <= Lines(items, fmtStart, fmtEnd)
    decreases |items|
  {
    if n < |items| {
      var init := items[..|items| - 1];
      assert init[..n] == items[..n];
      LinesPrefix(init, n, fmtStart, fmtEnd);
    } else {
      assert items[..n] == items;
    }
  }

  /**
    The k-th line of the schedule is the bullet of the k-th item: it sits
    right after the lines of the items before it.
  */
  lemma LineAt(items: seq<Item>, k: nat, fmtStart: int -> string, fmtEnd: int -> string)
    requires k < |items|
    ensures var before := |Lines(items[..k], fmtStart, fmtEnd)|;
            var line := Bullet(items[k], fmtStart, fmtEnd);
            before + |line| <= |Lines(items, fmtStart, fmtEnd)| &&
            Lines(items, fmtStart, fmtEnd)[before..before + |line|] == line
  {
    assert items[..k + 1][..k] == items[..k];
    LinesPrefix(items, k + 1, fmtStart, fmtEnd);
  }

  /** No formatted instant of these items contains a newline. */
  predicate OneLineTimes(items: seq<Item>, fmtStart: int -> string, fmtEnd: int -> string) {
    forall k :: 0 <= k < |items| ==> '\n' !in fmtStart(items[k].start) && '\n' !in fmtEnd(items[k].end)
  }

  lemma {:induction false} LinesNewlines(items: seq<Item>, fmtStart: int -> string, fmtEnd: int -> string)
    requires OneLineTimes(items, fmtStart, fmtEnd)
    ensures Count('\n', Lines(items, fmtStart, fmtEnd)) == |items|
    decreases |items|
  {
    if items != [] {
      var init, last := items[..|items| - 1], items[|items| - 1];
      assert OneLineTimes(init, fmtStart, fmtEnd) by {
        forall k | 0 <= k < |init| ensures init[k] == items[k] { }
      }
      LinesNewlines(init, fmtStart, fmtEnd);
      var a, b := fmtStart(last.start), fmtEnd(last.end);
      CountConcat('\n', Lines(init, fmtStart, fmtEnd), Bullet(last, fmtStart, fmtEnd));
      CountConcat('\n', "• " + a + "~" + b, "\n");
      CountConcat('\n', "• " + a + "~", b);
      CountConcat('\n', "• " + a, "~");
      CountConcat('\n', "• ", a);
    }
  }

  /**
    With no items the schedule part is the single fallback line and holds no
    newline; with n items it holds n + 1 newlines: the heading's and one
    ending each item's line.
  */
  lemma BodyNewlines(items: seq<Item>, fmtStart: int -> string, fmtEnd: int -> string)
    requires OneLineTimes(items, fmtStart, fmtEnd)
    ensures items == [] ==> Body(items, fmtStart, fmtEnd) == Fallback && Count('\n', Fallback) == 0
    ensures items != [] ==> Count('\n', Body(items, fmtStart, fmtEnd)) == |items| + 1
  {
    assert '\n' !in Fallback;
    if items != [] {
      LinesNewlines(items, fmtStart, fmtEnd);
      assert ScheduleHeading == "⏰ График работы:" + "\n";
      assert '\n' !in "⏰ График работы:";
      CountConcat('\n', "⏰ График работы:", "\n");
      CountConcat('\n', ScheduleHeading, Lines(items, fmtStart, fmtEnd));
    }
  }

  /** A reader can tell "no events" from any schedule. */
  lemma EmptyScheduleDistinct(items: seq<Item>, fmtStart: int -> string, fmtEnd: int -> string)
    requires items != []
    ensures Body([], fmtStart, fmtEnd) != Body(items, fmtStart, fmtEnd)
  {
  }

  /** The open flag can be read back from the payload. */
  lemma OpenFlagRecoverable(open1: bool, items1: seq<Item>, open2: bool, items2: seq<Item>,
                            fmtStart: int -> string, fmtEnd: int -> string)
    requires Payload(open1, items1, fmtStart, fmtEnd) == Payload(open2, items2, fmtStart, fmtEnd)
    ensures open1 == open2
  {
  }

  // ---------------------------------------------------------------------
  // Independence from the order the calendar delivers the items in

  /** Only start and end instants are shown; summaries never reach the payload. */
  lemma {:induction false} LinesShowOnlyTimes(s: seq<Item>, t: seq<Item>, fmtStart: int -> string, fmtEnd: int -> string)
    requires |s| == |t|
    requires forall k :: 0 <= k < |s| ==> s[k].start == t[k].start && s[k].end == t[k].end
    ensures Lines(s, fmtStart, fmtEnd) == Lines(t, fmtStart, fmtEnd)
    decreases |s|
  {
    if s != [] {
      LinesShowOnlyTimes(s[..|s| - 1], t[..|t| - 1], fmtStart, fmtEnd);
    }
  }

  /**
    Whatever order the items arrive in and whichever sorted order the
    in-place sort leaves them in, the payload is the same, as long as items
    that start together also end together (the sort is not stable).
  */
  lemma PayloadIndependentOfInputOrder(open: bool, s: seq<Item>, t: seq<Item>,
                                       fmtStart: int -> string, fmtEnd: int -> string)
    requires SortedByStart(s) && SortedByStart(t) && multiset(s) == multiset(t)
    requires TiesAgreeOnEnd(s)
    ensures Payload(open, s, fmtStart, fmtEnd) == Payload(open, t, fmtStart, fmtEnd)
  {
    SortedSlotsAgree(s, t);
    LinesShowOnlyTimes(s, t, fmtStart, fmtEnd);
  }

  /**
    A refresh that renders the same status and the same events again (in
    any order) sends the text the message already has; if Telegram answers
    such an edit with its "not modified" error, nothing is logged.
  */
  lemma RepeatedRefreshNotLogged(open: bool, previous: seq<Item>, current: seq<Item>,
                                 fmtStart: int -> string, fmtEnd: int -> string,
                                 reply: (string, string) -> Option<string>)
    requires SortedByStart(previous) && SortedByStart(current)
    requires multiset(previous) == multiset(current) && TiesAgreeOnEnd(previous)
    requires forall text :: reply(text, text) == Some(NotModified)
    ensures !EditFailure(reply(Payload(open, previous, fmtStart, fmtEnd), Payload(open, current, fmtStart, fmtEnd)))
  {
    PayloadIndependentOfInputOrder(open, previous, current, fmtStart, fmtEnd);
  }

  /**
    The worked example: status open, one event from 10:00 to 12:00 on
    1 January 2024 (a Monday) in the display zone.
  */
  lemma OpenOneEventExample(item: Item, fmtStart: int -> string, fmtEnd: int -> string)
    requires fmtStart(item.start) == "1 Jan, Mon 10:00" && fmtEnd(item.end) == "12:00"
    ensures Payload(true, [item], fmtStart, fmtEnd)
         == OpenBanner + ScheduleHeading + "• 1 Jan, Mon 10:00~12:00\n"
  {
    ExampleBullet(item, fmtStart, fmtEnd);
    assert [item][..0] == [];
    assert Lines([item], fmtStart, fmtEnd) == Bullet(item, fmtStart, fmtEnd);
  }

  lemma ExampleBullet(item: Item, fmtStart: int -> string, fmtEnd: int -> string)
    requires fmtStart(item.start) == "1 Jan, Mon 10:00" && fmtEnd(item.end) == "12:00"
    ensures Bullet(item, fmtStart, fmtEnd) == "• 1 Jan, Mon 10:00~12:00\n"
  {
  }
}
