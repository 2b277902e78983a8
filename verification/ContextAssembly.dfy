/** Compiling a bounded context for the tutor: which text of which attachments and messages goes in, newest messages first. */
module ContextAssembly {
  import opened Wrappers
  import opened Text

  /** The text of an attachment or a message, by its id. */
  datatype Item = Item(id: string, text: string)

  datatype Budget = Budget(
    messageLimit: int,
    messageChars: int,
    attachmentChars: int,
    attachmentLimit: int,
    perAttachment: int)

  /** How many items a slice up to a limit keeps; a negative limit counts from the end. */
  function SliceLength(length: nat, limit: int): (n: nat)
    ensures n <= length
    ensures 0 <= limit <= length ==> n == limit
  {
    if limit < 0 then (if length + limit < 0 then 0 else length + limit)
    else if limit < length then limit
    else length
  }

  function Sliced<T>(items: seq<T>, limit: int): seq<T>
  {
    items[..SliceLength(|items|, limit)]
  }

  function Nonnegative(n: int): nat
  {
    if n < 0 then 0 else n
  }

  function Least(a: int, b: int): int
  {
    if a < b then a else b
  }

  /** The characters in a list of items. */
  function Chars(items: seq<Item>): nat
  {
    if items == [] then 0 else Chars(items[..|items| - 1]) + |items[|items| - 1].text|
  }

  // ---- attachments ------------------------------------------------------------------------------

  function Stripped(text: string): string
  {
    StripRight(StripLeft(text))
  }

  datatype Taken = Taken(items: seq<Item>, remaining: int, omitted: nat)

  function TakeOne(t: Taken, item: Item, cap: int): Taken
  {
    var text := Stripped(item.text);
    if text == "" || t.remaining <= 0 then t.(omitted := t.omitted + 1)
    else
      var excerpt := Sliced(text, Least(cap, t.remaining));
      Taken(t.items + [Item(item.id, excerpt)], t.remaining - |excerpt|, t.omitted)
  }

  function Attachments(offered: seq<Item>, cap: int, chars: nat): Taken
  {
    if offered == [] then Taken([], chars, 0)
    else TakeOne(Attachments(offered[..|offered| - 1], cap, chars), offered[|offered| - 1], cap)
  }

  /** The characters of the offered attachments, each counted up to the cap. */
  function CappedChars(offered: seq<Item>, cap: nat): nat
  {
    if offered == [] then 0
    else CappedChars(offered[..|offered| - 1], cap) + SliceLength(|Stripped(offered[|offered| - 1].text)|, cap)
  }

  lemma CharsAppended(items: seq<Item>, item: Item)
    ensures Chars(items + [item]) == Chars(items) + |item.text|
  {
    assert (items + [item])[..|items|] == items;
  }

  lemma TakingOne(t: Taken, item: Item, cap: nat)
    requires t.remaining >= 0
    ensures var more, length := TakeOne(t, item, cap), SliceLength(|Stripped(item.text)|, cap);
            && more.remaining == t.remaining - Least(t.remaining, length)
            && Chars(more.items) == Chars(t.items) + Least(t.remaining, length)
            && |more.items| + more.omitted == |t.items| + t.omitted + 1
  {
    CharsAppended(t.items, Item(item.id, Sliced(Stripped(item.text), Least(cap, t.remaining))));
  }

  /** With a cap that is not negative the text taken is exactly greedy: the budget, or everything offered if that is less. */
  lemma {:induction false} AttachmentsAreGreedy(offered: seq<Item>, cap: nat, chars: nat)
    ensures var t := Attachments(offered, cap, chars);
            && t.remaining == chars - Chars(t.items)
            && Chars(t.items) == Least(chars, CappedChars(offered, cap))
            && |t.items| + t.omitted == |offered|
  {
    if offered != [] {
      AttachmentsAreGreedy(offered[..|offered| - 1], cap, chars);
      TakingOne(Attachments(offered[..|offered| - 1], cap, chars), offered[|offered| - 1], cap);
    }
  }

  /** Whether every list of attachments stays within every budget. */
  ghost predicate KeepsToBudget(cap: int)
  {
    forall offered: seq<Item>, chars: nat :: Chars(Attachments(offered, cap, chars).items) <= chars
  }

  function Repeated(n: nat): string
  {
    seq(n, _ => 'x')
  }

  lemma RepeatedIsStripped(n: nat)
    ensures Stripped(Repeated(n)) == Repeated(n) && |Repeated(n)| == n
  {
    if n > 0 {
      assert !IsSpace(Repeated(n)[0]) && !IsSpace(Repeated(n)[n - 1]);
    }
  }

  lemma OneAttachment(item: Item, cap: int, chars: nat)
    requires Stripped(item.text) == item.text && item.text != "" && chars > 0
    ensures Chars(Attachments([item], cap, chars).items) == SliceLength(|item.text|, Least(cap, chars))
  {
    assert [item][..|[item]| - 1] == [] && Attachments([], cap, chars) == Taken([], chars, 0);
    var excerpt := Item(item.id, Sliced(item.text, Least(cap, chars)));
    assert Attachments([item], cap, chars).items == [] + [excerpt];
    CharsAppended([], excerpt);
  }

  lemma NegativeCapOverruns(cap: int)
    requires cap < 0
    ensures !KeepsToBudget(cap)
  {
    var item := Item("", Repeated(2 - cap));
    RepeatedIsStripped(2 - cap);
    OneAttachment(item, cap, 1);
    assert Chars(Attachments([item], cap, 1).items) > 1;
  }

  /** The budget for attachments is respected exactly when the cap on one attachment is not negative. */
  lemma AttachmentBudgetExactly(cap: int)
    ensures KeepsToBudget(cap) <==> cap >= 0
  {
    if cap < 0 {
      NegativeCapOverruns(cap);
    } else {
      forall offered: seq<Item>, chars: nat
        ensures Chars(Attachments(offered, cap, chars).items) <= chars
      {
        AttachmentsAreGreedy(offered, cap, chars);
      }
    }
  }

  /** Each text taken is a beginning of the text of an offered attachment, and they come in the order offered. */
  ghost predicate InOrder(items: seq<Item>, offered: seq<Item>, places: seq<nat>)
  {
    && |places| == |items|
    && (forall i :: 0 <= i < |items| ==>
          places[i] < |offered| && items[i].id == offered[places[i]].id && items[i].text <= Stripped(offered[places[i]].text))
    && (forall i, j :: 0 <= i < j < |places| ==> places[i] < places[j])
  }

  lemma InOrderLonger(items: seq<Item>, offered: seq<Item>, places: seq<nat>, next: Item)
    requires InOrder(items, offered, places)
    ensures InOrder(items, offered + [next], places)
  {
  }

  lemma InOrderOneMore(items: seq<Item>, offered: seq<Item>, places: seq<nat>, next: Item, excerpt: Item)
    requires InOrder(items, offered, places)
    requires excerpt.id == next.id && excerpt.text <= Stripped(next.text)
    ensures InOrder(items + [excerpt], offered + [next], places + [|offered|])
  {
    var longer, all := items + [excerpt], offered + [next];
    forall i | 0 <= i < |longer|
      ensures (places + [|offered|])[i] < |all| && longer[i].id == all[(places + [|offered|])[i]].id
      ensures longer[i].text <= Stripped(all[(places + [|offered|])[i]].text)
    {
      if i < |items| {
        assert longer[i] == items[i] && all[places[i]] == offered[places[i]];
      }
    }
  }

  lemma {:induction false} AttachmentsKeepOrder(offered: seq<Item>, cap: int, chars: nat) returns (places: seq<nat>)
    ensures InOrder(Attachments(offered, cap, chars).items, offered, places)
  {
    if offered == [] {
      places := [];
    } else {
      var rest, next := offered[..|offered| - 1], offered[|offered| - 1];
      var before := Attachments(rest, cap, chars);
      places := AttachmentsKeepOrder(rest, cap, chars);
      assert offered == rest + [next];
      if Stripped(next.text) == "" || before.remaining <= 0 {
        InOrderLonger(before.items, rest, places, next);
      } else {
        var excerpt := Item(next.id, Sliced(Stripped(next.text), Least(cap, before.remaining)));
        InOrderOneMore(before.items, rest, places, next, excerpt);
        places := places + [|rest|];
      }
    }
  }

  function Omitted(offered: seq<Item>, budget: Budget): nat
  {
    Attachments(Sliced(offered, budget.attachmentLimit), budget.perAttachment, Nonnegative(budget.attachmentChars)).omitted
    + Nonnegative(|offered| - budget.attachmentLimit)
  }

  lemma {:induction false} EachIsTakenOrOmitted(offered: seq<Item>, cap: int, chars: nat)
    ensures |Attachments(offered, cap, chars).items| + Attachments(offered, cap, chars).omitted == |offered|
  {
    if offered != [] {
      EachIsTakenOrOmitted(offered[..|offered| - 1], cap, chars);
    }
  }

  /** Taken and omitted attachments add up to those offered exactly when the limit on their number is not negative. */
  lemma AttachmentsAddUpExactly(offered: seq<Item>, budget: Budget)
    ensures var taken := Attachments(Sliced(offered, budget.attachmentLimit), budget.perAttachment,
                                     Nonnegative(budget.attachmentChars)).items;
            |taken| + Omitted(offered, budget) == |offered| <==> budget.attachmentLimit >= 0
  {
    EachIsTakenOrOmitted(Sliced(offered, budget.attachmentLimit), budget.perAttachment, Nonnegative(budget.attachmentChars));
  }

  // ---- the conversation -------------------------------------------------------------------------

  /** The kept messages, oldest first, and how many were cut or left out for want of room. */
  datatype Kept = Kept(items: seq<Item>, cut: nat)

  function Beginning(text: string, room: nat): (r: string)
    ensures |r| == Least(|text|, room) && r <= text
    ensures |text| <= room ==> r == text
  {
    text[..Least(|text|, room)]
  }

  /** The newest message takes what it needs of the room, and the older ones share what is left. */
  function Conversation(messages: seq<Item>, room: nat): Kept
  {
    if messages == [] then Kept([], 0)
    else
      var newest := messages[|messages| - 1];
      var excerpt := Beginning(newest.text, room);
      var older := Conversation(messages[..|messages| - 1], room - |excerpt|);
      Kept(older.items + (if excerpt == "" then [] else [Item(newest.id, excerpt)]),
           older.cut + if room == 0 || |excerpt| < |newest.text| then 1 else 0)
  }

  /** The conversation uses exactly the budget, or everything selected if that is less. */
  lemma {:induction false} ConversationIsGreedy(messages: seq<Item>, room: nat)
    ensures Chars(Conversation(messages, room).items) == Least(room, Chars(messages))
  {
    if messages != [] {
      var newest := messages[|messages| - 1];
      var excerpt := Beginning(newest.text, room);
      ConversationIsGreedy(messages[..|messages| - 1], room - |excerpt|);
      var older := Conversation(messages[..|messages| - 1], room - |excerpt|);
      if excerpt == "" {
        assert older.items + [] == older.items;
      } else {
        CharsAppended(older.items, Item(newest.id, excerpt));
      }
    }
  }

  predicate Written(item: Item)
  {
    item.text != ""
  }

  function WrittenOnly(messages: seq<Item>): seq<Item>
  {
    if messages == [] then []
    else
      WrittenOnly(messages[..|messages| - 1])
      + if Written(messages[|messages| - 1]) then [messages[|messages| - 1]] else []
  }

  /**
   * A suffix of the messages that have text is kept whole, in order; in front of it stands at most one more, cut to a
   * proper beginning; and nothing older is kept.
   */
  ghost predicate NewestWhole(items: seq<Item>, written: seq<Item>)
  {
    && |items| <= |written|
    && var first := |written| - |items|;
       && (forall i :: 1 <= i < |items| ==> items[i] == written[first + i])
       && (items != [] ==> items[0].id == written[first].id && items[0].text <= written[first].text && items[0].text != "")
  }

  lemma WholeOneMore(items: seq<Item>, written: seq<Item>, newest: Item)
    requires NewestWhole(items, written) && Written(newest)
    ensures NewestWhole(items + [newest], written + [newest])
  {
    var longer, all := items + [newest], written + [newest];
    var first := |written| - |items|;
    forall i | 1 <= i < |longer|
      ensures longer[i] == all[first + i]
    {
      if i < |items| {
        assert items[i] == written[first + i];
      }
    }
  }

  lemma NewestAlone(written: seq<Item>, newest: Item, excerpt: Item)
    requires excerpt.id == newest.id && excerpt.text <= newest.text && Written(excerpt)
    ensures NewestWhole([excerpt], written + [newest])
  {
  }

  lemma {:induction false} NothingWithoutRoom(messages: seq<Item>)
    ensures Conversation(messages, 0).items == [] && Conversation(messages, 0).cut == |messages|
  {
    if messages != [] {
      NothingWithoutRoom(messages[..|messages| - 1]);
    }
  }

  lemma {:induction false} WrittenChars(messages: seq<Item>)
    ensures Chars(WrittenOnly(messages)) == Chars(messages)
  {
    if messages != [] {
      var rest, newest := messages[..|messages| - 1], messages[|messages| - 1];
      WrittenChars(rest);
      if Written(newest) {
        CharsAppended(WrittenOnly(rest), newest);
      } else {
        assert WrittenOnly(rest) + [] == WrittenOnly(rest);
      }
    }
  }

  lemma {:induction false} EverythingFits(messages: seq<Item>, room: nat)
    requires Chars(messages) <= room
    ensures Conversation(messages, room).items == WrittenOnly(messages)
  {
    if messages != [] {
      var rest, newest := messages[..|messages| - 1], messages[|messages| - 1];
      EverythingFits(rest, room - |newest.text|);
      assert Beginning(newest.text, room) == newest.text && newest == Item(newest.id, newest.text);
    }
  }

  /** The messages that have text are all kept, whole and in order, exactly when they fit the room. */
  lemma ConversationIsWholeExactly(messages: seq<Item>, room: nat)
    ensures Conversation(messages, room).items == WrittenOnly(messages) <==> Chars(messages) <= room
  {
    if Chars(messages) <= room {
      EverythingFits(messages, room);
    } else {
      ConversationIsGreedy(messages, room);
      WrittenChars(messages);
    }
  }

  lemma {:induction false} ConversationKeepsNewest(messages: seq<Item>, room: nat)
    ensures NewestWhole(Conversation(messages, room).items, WrittenOnly(messages))
  {
    if messages != [] {
      var rest, newest := messages[..|messages| - 1], messages[|messages| - 1];
      var excerpt := Beginning(newest.text, room);
      if excerpt == "" && newest.text != "" {
        NothingWithoutRoom(messages);
      } else if |excerpt| < |newest.text| {
        NothingWithoutRoom(rest);
        NewestAlone(WrittenOnly(rest), newest, Item(newest.id, excerpt));
        assert [] + [Item(newest.id, excerpt)] == [Item(newest.id, excerpt)];
      } else {
        ConversationKeepsNewest(rest, room - |newest.text|);
        assert messages == rest + [newest];
        KeepsNewestOneMore(rest, newest, room);
      }
    }
  }

  lemma KeepsNewestOneMore(rest: seq<Item>, newest: Item, room: nat)
    requires |newest.text| <= room
    requires NewestWhole(Conversation(rest, room - |newest.text|).items, WrittenOnly(rest))
    ensures NewestWhole(Conversation(rest + [newest], room).items, WrittenOnly(rest + [newest]))
  {
    assert (rest + [newest])[..|rest|] == rest && newest.text[..|newest.text|] == newest.text;
    var older := Conversation(rest, room - |newest.text|);
    if newest.text == "" {
      assert older.items + [] == older.items && WrittenOnly(rest) + [] == WrittenOnly(rest);
    } else {
      assert newest == Item(newest.id, newest.text);
      WholeOneMore(older.items, WrittenOnly(rest), newest);
    }
  }

  /** Nothing is counted as cut exactly when the room is not used up before the oldest message is reached. */
  lemma {:induction false} NothingCutExactly(messages: seq<Item>, room: nat)
    ensures Conversation(messages, room).cut == 0
            <==> messages == [] || (Chars(messages) <= room && Chars(messages[1..]) < room)
  {
    if messages != [] {
      var n := |messages| - 1;
      var newest := messages[n];
      var excerpt := Beginning(newest.text, room);
      NothingCutExactly(messages[..n], room - |excerpt|);
      if n > 0 {
        assert messages[..n][1..] == messages[1..][..n - 1] && messages[1..][n - 1] == newest;
      } else {
        assert messages[1..] == [] && messages[..n] == [];
      }
    }
  }

  // ---- the assembly -----------------------------------------------------------------------------

  datatype Context = Context(attachments: seq<Item>, omitted: nat, conversation: seq<Item>, cut: nat)

  method TakeAttachments(offered: seq<Item>, budget: Budget) returns (items: seq<Item>, omitted: nat)
    ensures items == Attachments(Sliced(offered, budget.attachmentLimit), budget.perAttachment,
                                 Nonnegative(budget.attachmentChars)).items
    ensures omitted == Omitted(offered, budget)
    ensures |items| + omitted == |offered| <==> budget.attachmentLimit >= 0
  {
    AttachmentsAddUpExactly(offered, budget);
    var selected := Sliced(offered, budget.attachmentLimit);
    var remaining: int := Nonnegative(budget.attachmentChars);
    items, omitted := [], 0;
    for i := 0 to |selected|
      invariant Taken(items, remaining, omitted)
                == Attachments(selected[..i], budget.perAttachment, Nonnegative(budget.attachmentChars))
    {
      assert selected[..i + 1][..i] == selected[..i];
      var text := Stripped(selected[i].text);
      if text == "" || remaining <= 0 {
        omitted := omitted + 1;
      } else {
        var excerpt := Sliced(text, Least(budget.perAttachment, remaining));
        items := items + [Item(selected[i].id, excerpt)];
        remaining := remaining - |excerpt|;
      }
    }
    assert selected[..|selected|] == selected;
    omitted := omitted + Nonnegative(|offered| - budget.attachmentLimit);
  }

  method KeepConversation(messages: seq<Item>, budget: Budget) returns (items: seq<Item>, cut: nat)
    ensures var selected := Sliced(messages, budget.messageLimit);
            && Kept(items, cut) == Conversation(selected, Nonnegative(budget.messageChars))
            && Chars(items) == Least(Nonnegative(budget.messageChars), Chars(selected))
            && NewestWhole(items, WrittenOnly(selected))
            && (items == WrittenOnly(selected) <==> Chars(selected) <= Nonnegative(budget.messageChars))
  {
    var selected := Sliced(messages, budget.messageLimit);
    var remaining: nat := Nonnegative(budget.messageChars);
    items, cut := [], 0;
    ghost var whole := Conversation(selected, remaining);
    var i := |selected|;
    assert selected[..i] == selected && whole.items + [] == whole.items;
    while i > 0
      invariant 0 <= i <= |selected|
      invariant Continues(selected[..i], remaining, items, cut, whole)
    {
      i := i - 1;
      assert selected[..i + 1][..i] == selected[..i];
      Continued(selected[..i + 1], remaining, items, cut, whole);
      var content := selected[i].text;
      if remaining == 0 {
        cut := cut + 1;
        continue;
      }
      var excerpt := Beginning(content, remaining);
      if |excerpt| < |content| {
        cut := cut + 1;
      }
      if excerpt == "" {
        continue;
      }
      items := [Item(selected[i].id, excerpt)] + items;
      remaining := remaining - |excerpt|;
    }
    assert selected[..0] == [] && [] + items == items;
    ConversationLaws(selected, Nonnegative(budget.messageChars));
  }

  lemma ConversationLaws(messages: seq<Item>, room: nat)
    ensures var items := Conversation(messages, room).items;
            && Chars(items) == Least(room, Chars(messages))
            && NewestWhole(items, WrittenOnly(messages))
            && (items == WrittenOnly(messages) <==> Chars(messages) <= room)
  {
    ConversationIsGreedy(messages, room);
    ConversationKeepsNewest(messages, room);
    ConversationIsWholeExactly(messages, room);
  }

  /** What older messages would give, in front of what is kept of the newer ones, is the whole. */
  ghost predicate Continues(older: seq<Item>, room: nat, items: seq<Item>, cut: nat, whole: Kept)
  {
    Conversation(older, room).items + items == whole.items && Conversation(older, room).cut + cut == whole.cut
  }

  /** The newest of the older messages goes in front of the newer ones, or adds nothing. */
  lemma Continued(messages: seq<Item>, room: nat, items: seq<Item>, cut: nat, whole: Kept)
    requires messages != [] && Continues(messages, room, items, cut, whole)
    ensures var newest := messages[|messages| - 1];
            var excerpt := Beginning(newest.text, room);
            Continues(messages[..|messages| - 1], room - |excerpt|,
                      if excerpt == "" then items else [Item(newest.id, excerpt)] + items,
                      cut + if room == 0 || |excerpt| < |newest.text| then 1 else 0, whole)
  {
    OlderThan(messages, room, items);
    assert [] + items == items;
  }

  /** Taking the newest of some messages leaves the older ones in front of it. */
  lemma OlderThan(messages: seq<Item>, room: nat, newer: seq<Item>)
    requires messages != []
    ensures var newest := messages[|messages| - 1];
            var excerpt := Beginning(newest.text, room);
            var older := Conversation(messages[..|messages| - 1], room - |excerpt|);
            && Conversation(messages, room).items + newer
               == older.items + ((if excerpt == "" then [] else [Item(newest.id, excerpt)]) + newer)
            && Conversation(messages, room).cut == older.cut + if room == 0 || |excerpt| < |newest.text| then 1 else 0
  {
  }
}
