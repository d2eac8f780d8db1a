/** writeOutput of unseen.go: the selected rows, grouped by chat label. */
module Output {
  import opened Text

  datatype Msg = Msg(
    id: string,
    chatJID: string,
    chatLabel: string,
    ts: int,
    localPath: Option<string>,
    hydratedAt: Option<int>,
    needsMark: bool)

  datatype Line =
    | Title(cutoff: int)
    | Totals(messages: nat, groups: nat)
    | Blank
    | NoMessages
    | Section(chatLabel: string, chatJID: string, messages: nat)
    | Item(msg: Msg)

  /** The rows of one label, in order. */
  function Of(msgs: seq<Msg>, chatLabel: string): seq<Msg> {
    if msgs == [] then []
    else Of(msgs[..|msgs| - 1], chatLabel) + if msgs[|msgs| - 1].chatLabel == chatLabel then [msgs[|msgs| - 1]] else []
  }

  /** The labels in the order in which they first occur. */
  function Labels(msgs: seq<Msg>): seq<string> {
    if msgs == [] then []
    else
      var r, last := Labels(msgs[..|msgs| - 1]), msgs[|msgs| - 1].chatLabel;
      if last in r then r else r + [last]
  }

  /** A label is listed exactly when it has rows. */
  lemma {:induction false} LabelHasRows(msgs: seq<Msg>, l: string)
    ensures l in Labels(msgs) <==> Of(msgs, l) != []
    decreases |msgs|
  {
    if msgs != [] {
      LabelHasRows(msgs[..|msgs| - 1], l);
    }
  }

  function Concat(msgs: seq<Msg>, labels: seq<string>): seq<Msg> {
    if labels == [] then [] else Concat(msgs, labels[..|labels| - 1]) + Of(msgs, labels[|labels| - 1])
  }

  /** What is printed, in order. */
  function Grouped(msgs: seq<Msg>): seq<Msg> {
    Concat(msgs, Labels(msgs))
  }

  function Items(lines: seq<Line>): seq<Msg> {
    if lines == [] then []
    else Items(lines[..|lines| - 1]) + if lines[|lines| - 1].Item? then [lines[|lines| - 1].msg] else []
  }

  lemma ItemsAppend(lines: seq<Line>, line: Line)
    ensures Items(lines + [line]) == Items(lines) + if line.Item? then [line.msg] else []
  {
    var longer := lines + [line];
    assert longer[..|longer| - 1] == lines;
  }

  lemma OfAppend(msgs: seq<Msg>, m: Msg, l: string)
    ensures Of(msgs + [m], l) == Of(msgs, l) + if m.chatLabel == l then [m] else []
  {
    var longer := msgs + [m];
    assert longer[..|longer| - 1] == msgs;
  }

  lemma LabelsAppend(msgs: seq<Msg>, m: Msg)
    ensures Labels(msgs + [m]) == if m.chatLabel in Labels(msgs) then Labels(msgs) else Labels(msgs) + [m.chatLabel]
  {
    var longer := msgs + [m];
    assert longer[..|longer| - 1] == msgs;
  }

  /** The first loop of writeOutput: collect by label. */
  method Collect(msgs: seq<Msg>) returns (groupOrder: seq<string>, byGroup: map<string, seq<Msg>>)
    ensures groupOrder == Labels(msgs)
    ensures forall l | l in groupOrder :: l in byGroup && byGroup[l] == Of(msgs, l)
  {
    groupOrder, byGroup := [], map[];
    var i := 0;
    while i < |msgs|
      invariant 0 <= i <= |msgs|
      invariant groupOrder == Labels(msgs[..i])
      invariant forall l :: l in byGroup <==> l in groupOrder
      invariant forall l | l in byGroup :: byGroup[l] == Of(msgs[..i], l)
    {
      var msg := msgs[i];
      assert msgs[..i + 1] == msgs[..i] + [msg];
      LabelsAppend(msgs[..i], msg);
      LabelHasRows(msgs[..i], msg.chatLabel);
      forall l ensures Of(msgs[..i + 1], l) == Of(msgs[..i], l) + if msg.chatLabel == l then [msg] else [] {
        OfAppend(msgs[..i], msg, l);
      }
      if msg.chatLabel !in byGroup {
        groupOrder := groupOrder + [msg.chatLabel];
        byGroup := byGroup[msg.chatLabel := []];
      }
      byGroup := byGroup[msg.chatLabel := byGroup[msg.chatLabel] + [msg]];
      i := i + 1;
    }
    assert msgs[..i] == msgs;
  }

  function ItemLines(msgs: seq<Msg>): seq<Line> {
    if msgs == [] then [] else ItemLines(msgs[..|msgs| - 1]) + [Item(msgs[|msgs| - 1])]
  }

  /** The lines of one label. */
  function Block(chatLabel: string, gmsgs: seq<Msg>): seq<Line> {
    [Section(chatLabel, if gmsgs == [] then "" else gmsgs[0].chatJID, |gmsgs|), Blank] + ItemLines(gmsgs) + [Blank]
  }

  function Blocks(msgs: seq<Msg>, labels: seq<string>): seq<Line> {
    if labels == [] then []
    else Blocks(msgs, labels[..|labels| - 1]) + Block(labels[|labels| - 1], Of(msgs, labels[|labels| - 1]))
  }

  function Head(cutoff: int, messages: nat, groups: nat): seq<Line> {
    [Title(cutoff), Totals(messages, groups), Blank] + if messages == 0 then [NoMessages] else []
  }

  /** Everything that is written for a run. */
  function Lines(cutoff: int, msgs: seq<Msg>): seq<Line> {
    Head(cutoff, |msgs|, |Labels(msgs)|) + Blocks(msgs, Labels(msgs))
  }

  method WriteOutput(cutoff: int, msgs: seq<Msg>) returns (out: seq<Line>)
    ensures out == Lines(cutoff, msgs) && Items(out) == Grouped(msgs)
    ensures |out| >= 2 && out[0] == Title(cutoff) && out[1] == Totals(|msgs|, |Labels(msgs)|)
  {
    var groupOrder, byGroup := Collect(msgs);
    out := WriteHead(cutoff, |msgs|, |groupOrder|);
    var g := 0;
    while g < |groupOrder|
      invariant 0 <= g <= |groupOrder|
      invariant out == Head(cutoff, |msgs|, |groupOrder|) + Blocks(msgs, groupOrder[..g])
    {
      var l := groupOrder[g];
      var block := WriteSection(l, byGroup[l]);
      OneMoreBlock(Head(cutoff, |msgs|, |groupOrder|), msgs, groupOrder, g);
      out := out + block;
      g := g + 1;
    }
    assert groupOrder[..g] == groupOrder;
    LinesItems(cutoff, msgs);
  }

  lemma OneMoreBlock(head: seq<Line>, msgs: seq<Msg>, labels: seq<string>, g: nat)
    requires g < |labels|
    ensures head + Blocks(msgs, labels[..g + 1])
         == (head + Blocks(msgs, labels[..g])) + Block(labels[g], Of(msgs, labels[g]))
  {
    assert labels[..g + 1][..g] == labels[..g];
  }

  method WriteHead(cutoff: int, messages: nat, groups: nat) returns (out: seq<Line>)
    ensures out == Head(cutoff, messages, groups)
  {
    out := [Title(cutoff)];
    out := out + [Totals(messages, groups)];
    out := out + [Blank];
    if messages == 0 {
      out := out + [NoMessages];
    }
  }

  method WriteSection(chatLabel: string, gmsgs: seq<Msg>) returns (out: seq<Line>)
    ensures out == Block(chatLabel, gmsgs)
  {
    var jid := if gmsgs == [] then "" else gmsgs[0].chatJID;
    out := [Section(chatLabel, jid, |gmsgs|)];
    out := out + [Blank];
    var k := 0;
    while k < |gmsgs|
      invariant 0 <= k <= |gmsgs|
      invariant out == [Section(chatLabel, jid, |gmsgs|), Blank] + ItemLines(gmsgs[..k])
    {
      out := out + [Item(gmsgs[k])];
      assert gmsgs[..k + 1][..k] == gmsgs[..k];
      k := k + 1;
    }
    assert gmsgs[..k] == gmsgs;
    out := out + [Blank];
  }

  // ---------------------------------------------------------------- what the lines say

  lemma {:induction false} ItemsConcat(a: seq<Line>, b: seq<Line>)
    ensures Items(a + b) == Items(a) + Items(b)
    decreases |b|
  {
    if b == [] {
      assert a + b == a;
    } else {
      var front, last := b[..|b| - 1], b[|b| - 1];
      assert a + b == (a + front) + [last];
      ItemsAppend(a + front, last);
      ItemsConcat(a, front);
    }
  }

  lemma {:induction false} ItemLinesAre(msgs: seq<Msg>)
    ensures |ItemLines(msgs)| == |msgs| && Items(ItemLines(msgs)) == msgs
    ensures forall k | 0 <= k < |msgs| :: ItemLines(msgs)[k] == Item(msgs[k])
    decreases |msgs|
  {
    if msgs != [] {
      ItemLinesAre(msgs[..|msgs| - 1]);
      ItemsAppend(ItemLines(msgs[..|msgs| - 1]), Item(msgs[|msgs| - 1]));
    }
  }

  lemma BlockItems(l: string, gmsgs: seq<Msg>)
    ensures Items(Block(l, gmsgs)) == gmsgs
  {
    var head := [Section(l, if gmsgs == [] then "" else gmsgs[0].chatJID, |gmsgs|)];
    ItemLinesAre(gmsgs);
    ItemsAppend([], head[0]);
    ItemsAppend(head, Blank);
    assert [] + head == head && head + [Blank] == [head[0], Blank];
    ItemsConcat([head[0], Blank], ItemLines(gmsgs));
    ItemsAppend([head[0], Blank] + ItemLines(gmsgs), Blank);
  }

  lemma {:induction false} BlocksItems(msgs: seq<Msg>, labels: seq<string>)
    ensures Items(Blocks(msgs, labels)) == Concat(msgs, labels)
    decreases |labels|
  {
    if labels != [] {
      var front, l := labels[..|labels| - 1], labels[|labels| - 1];
      BlocksItems(msgs, front);
      BlockItems(l, Of(msgs, l));
      ItemsConcat(Blocks(msgs, front), Block(l, Of(msgs, l)));
    }
  }

  lemma {:induction false} NoItems(lines: seq<Line>)
    requires forall x | x in lines :: !x.Item?
    ensures Items(lines) == []
    decreases |lines|
  {
    if lines != [] {
      NoItems(lines[..|lines| - 1]);
    }
  }

  lemma LinesItems(cutoff: int, msgs: seq<Msg>)
    ensures Items(Lines(cutoff, msgs)) == Grouped(msgs)
  {
    var head := Head(cutoff, |msgs|, |Labels(msgs)|);
    NoItems(head);
    BlocksItems(msgs, Labels(msgs));
    ItemsConcat(head, Blocks(msgs, Labels(msgs)));
  }

  /** A section line is followed by a blank and by as many items as it says; all of them have its label, and the first
      has its chat. */
  predicate Describes(lines: seq<Line>, i: nat)
    requires i < |lines| && lines[i].Section?
  {
    var n := lines[i].messages;
    && n > 0 && i + 2 + n < |lines| && lines[i + 1].Blank? && lines[i + 2 + n].Blank?
    && (forall k | i + 2 <= k < i + 2 + n :: lines[k].Item? && lines[k].msg.chatLabel == lines[i].chatLabel)
    && lines[i + 2].msg.chatJID == lines[i].chatJID
  }

  ghost predicate AllDescribe(lines: seq<Line>) {
    forall i: nat | i < |lines| && lines[i].Section? :: Describes(lines, i)
  }

  /** A block, line by line. */
  lemma BlockLines(l: string, gmsgs: seq<Msg>)
    requires gmsgs != []
    ensures var lines, n := Block(l, gmsgs), |gmsgs|;
            && |lines| == n + 3 && lines[0] == Section(l, gmsgs[0].chatJID, n)
            && lines[1] == Blank && lines[n + 2] == Blank
            && forall k | 2 <= k < n + 2 :: lines[k] == Item(gmsgs[k - 2])
  {
    ItemLinesAre(gmsgs);
    Framed(Section(l, gmsgs[0].chatJID, |gmsgs|), ItemLines(gmsgs));
  }

  lemma Framed(head: Line, items: seq<Line>)
    ensures var lines, n := [head, Blank] + items + [Blank], |items|;
            && |lines| == n + 3 && lines[0] == head && lines[1] == Blank && lines[n + 2] == Blank
            && forall k | 2 <= k < n + 2 :: lines[k] == items[k - 2]
  {
  }

  lemma BlockDescribes(msgs: seq<Msg>, l: string)
    requires Of(msgs, l) != []
    ensures AllDescribe(Block(l, Of(msgs, l)))
  {
    BlockLines(l, Of(msgs, l));
    OfMembers(msgs, l);
    var lines := Block(l, Of(msgs, l));
    assert Describes(lines, 0);
  }

  lemma {:induction false} OfMembers(msgs: seq<Msg>, l: string)
    ensures forall m | m in Of(msgs, l) :: m in msgs && m.chatLabel == l
    decreases |msgs|
  {
    if msgs != [] {
      OfMembers(msgs[..|msgs| - 1], l);
    }
  }

  lemma DescribeConcat(a: seq<Line>, b: seq<Line>)
    requires AllDescribe(a) && AllDescribe(b)
    ensures AllDescribe(a + b)
  {
    var lines := a + b;
    forall i: nat | i < |lines| && lines[i].Section? ensures Describes(lines, i) {
      if i < |a| {
        assert Describes(a, i);
      } else {
        var n := lines[i].messages;
        assert Describes(b, i - |a|);
        forall k | i + 2 <= k < i + 2 + n ensures lines[k].Item? && lines[k].msg.chatLabel == lines[i].chatLabel {
          assert lines[k] == b[k - |a|];
        }
      }
    }
  }

  lemma {:induction false} BlocksDescribe(msgs: seq<Msg>, labels: seq<string>)
    requires forall l | l in labels :: Of(msgs, l) != []
    ensures AllDescribe(Blocks(msgs, labels))
    decreases |labels|
  {
    if labels != [] {
      BlocksDescribe(msgs, labels[..|labels| - 1]);
      BlockDescribes(msgs, labels[|labels| - 1]);
      DescribeConcat(Blocks(msgs, labels[..|labels| - 1]), Block(labels[|labels| - 1], Of(msgs, labels[|labels| - 1])));
    }
  }

  /** In the output of a run every section line tells the truth about the items below it. */
  lemma SectionsDescribe(cutoff: int, msgs: seq<Msg>)
    ensures AllDescribe(Lines(cutoff, msgs))
  {
    forall l | l in Labels(msgs) ensures Of(msgs, l) != [] {
      LabelHasRows(msgs, l);
    }
    BlocksDescribe(msgs, Labels(msgs));
    DescribeConcat(Head(cutoff, |msgs|, |Labels(msgs)|), Blocks(msgs, Labels(msgs)));
  }

  // ---------------------------------------------------------------- what grouping does to the rows

  lemma {:induction false} LabelsDistinct(msgs: seq<Msg>)
    ensures Distinct(Labels(msgs))
    decreases |msgs|
  {
    if msgs != [] {
      LabelsDistinct(msgs[..|msgs| - 1]);
    }
  }

  lemma {:induction false} CountIn(msgs: seq<Msg>, l: string, m: Msg)
    ensures multiset(Of(msgs, l))[m] == if m.chatLabel == l then multiset(msgs)[m] else 0
    decreases |msgs|
  {
    if msgs != [] {
      CountIn(msgs[..|msgs| - 1], l, m);
      assert msgs == msgs[..|msgs| - 1] + [msgs[|msgs| - 1]];
    }
  }

  lemma {:induction false} CountConcat(msgs: seq<Msg>, labels: seq<string>, m: Msg)
    requires Distinct(labels)
    ensures multiset(Concat(msgs, labels))[m] == if m.chatLabel in labels then multiset(msgs)[m] else 0
    decreases |labels|
  {
    if labels != [] {
      var front, last := labels[..|labels| - 1], labels[|labels| - 1];
      assert labels == front + [last];
      CountConcat(msgs, front, m);
      CountIn(msgs, last, m);
      assert last !in front;
    }
  }

  /** Every selected row is printed exactly once, and nothing else is. */
  lemma PrintedExactlyOnce(msgs: seq<Msg>)
    ensures multiset(Grouped(msgs)) == multiset(msgs)
  {
    LabelsDistinct(msgs);
    forall m ensures multiset(Grouped(msgs))[m] == multiset(msgs)[m] {
      CountConcat(msgs, Labels(msgs), m);
      CountIn(msgs, m.chatLabel, m);
      LabelHasRows(msgs, m.chatLabel);
    }
  }

  lemma {:induction false} OfConcat(a: seq<Msg>, b: seq<Msg>, l: string)
    ensures Of(a + b, l) == Of(a, l) + Of(b, l)
    decreases |b|
  {
    if b == [] {
      assert a + b == a;
    } else {
      var front, last := b[..|b| - 1], b[|b| - 1];
      assert a + b == (a + front) + [last];
      OfAppend(a + front, last, l);
      OfConcat(a, front, l);
    }
  }

  lemma {:induction false} OfOf(msgs: seq<Msg>, l: string, l': string)
    ensures Of(Of(msgs, l), l') == if l == l' then Of(msgs, l) else []
    decreases |msgs|
  {
    if msgs != [] {
      var front, last := msgs[..|msgs| - 1], msgs[|msgs| - 1];
      OfOf(front, l, l');
      OfAppend(Of(front, l), last, l');
      assert Of(front, l) + [] == Of(front, l);
    }
  }

  lemma {:induction false} OfGroup(msgs: seq<Msg>, labels: seq<string>, l: string)
    requires Distinct(labels)
    ensures Of(Concat(msgs, labels), l) == if l in labels then Of(msgs, l) else []
    decreases |labels|
  {
    if labels != [] {
      var front, last := labels[..|labels| - 1], labels[|labels| - 1];
      assert labels == front + [last];
      OfGroup(msgs, front, l);
      OfConcat(Concat(msgs, front), Of(msgs, last), l);
      OfOf(msgs, last, l);
      assert last !in front;
    }
  }

  /** Grouping keeps the order of the rows within every label. */
  lemma OrderWithinLabelKept(msgs: seq<Msg>, l: string)
    ensures Of(Grouped(msgs), l) == Of(msgs, l)
  {
    LabelsDistinct(msgs);
    OfGroup(msgs, Labels(msgs), l);
    LabelHasRows(msgs, l);
  }

  /** The rows of every label stand together. */
  predicate Contiguous(msgs: seq<Msg>) {
    forall i, j, k | 0 <= i < j < k < |msgs| && msgs[i].chatLabel == msgs[k].chatLabel ::
      msgs[j].chatLabel == msgs[i].chatLabel
  }

  /** order by chat_label */
  predicate SortedByLabel(msgs: seq<Msg>) {
    forall i, j | 0 <= i < j < |msgs| ::
      msgs[i].chatLabel == msgs[j].chatLabel || Less(msgs[i].chatLabel, msgs[j].chatLabel)
  }

  lemma SortedIsContiguous(msgs: seq<Msg>)
    requires SortedByLabel(msgs)
    ensures Contiguous(msgs)
  {
    forall i, j, k | 0 <= i < j < k < |msgs| && msgs[i].chatLabel == msgs[k].chatLabel
      ensures msgs[j].chatLabel == msgs[i].chatLabel
    {
      if msgs[j].chatLabel != msgs[i].chatLabel {
        LessTransitive(msgs[i].chatLabel, msgs[j].chatLabel, msgs[k].chatLabel);
        LessIrreflexive(msgs[i].chatLabel);
      }
    }
  }

  lemma {:induction false} ConcatSame(a: seq<Msg>, b: seq<Msg>, labels: seq<string>)
    requires forall l | l in labels :: Of(a, l) == Of(b, l)
    ensures Concat(a, labels) == Concat(b, labels)
    decreases |labels|
  {
    if labels != [] {
      ConcatSame(a, b, labels[..|labels| - 1]);
    }
  }

  /** One more row of label l leaves the other labels' parts as they are. */
  lemma OthersKept(msgs: seq<Msg>, m: Msg, front: seq<string>)
    requires m.chatLabel !in front
    ensures Concat(msgs + [m], front + [m.chatLabel]) == Concat(msgs, front) + (Of(msgs, m.chatLabel) + [m])
  {
    forall l | l in front ensures Of(msgs + [m], l) == Of(msgs, l) {
      OfAppend(msgs, m, l);
      assert Of(msgs, l) + [] == Of(msgs, l);
    }
    ConcatSame(msgs + [m], msgs, front);
    ConcatAppend(msgs + [m], front, m.chatLabel);
    OfAppend(msgs, m, m.chatLabel);
  }

  lemma OneMoreOfLast(msgs: seq<Msg>, m: Msg)
    requires m.chatLabel in Labels(msgs) && Labels(msgs)[|Labels(msgs)| - 1] == m.chatLabel
    ensures Grouped(msgs + [m]) == Grouped(msgs) + [m]
  {
    var labels, l := Labels(msgs), m.chatLabel;
    LabelsAppend(msgs, m);
    LabelsDistinct(msgs);
    var front := labels[..|labels| - 1];
    assert labels == front + [l];
    OthersKept(msgs, m, front);
    ConcatAppend(msgs, front, l);
    Associate(Concat(msgs, front), Of(msgs, l), [m]);
  }

  lemma OneOfNewLabel(msgs: seq<Msg>, m: Msg)
    requires m.chatLabel !in Labels(msgs)
    ensures Grouped(msgs + [m]) == Grouped(msgs) + [m]
  {
    LabelsAppend(msgs, m);
    LabelHasRows(msgs, m.chatLabel);
    OthersKept(msgs, m, Labels(msgs));
    assert Of(msgs, m.chatLabel) + [m] == [m];
  }

  /** With one more row of the last label, or of a new one, the printed order grows at its end. */
  lemma GroupedAppend(msgs: seq<Msg>, m: Msg)
    requires m.chatLabel in Labels(msgs) ==> Labels(msgs)[|Labels(msgs)| - 1] == m.chatLabel
    ensures Grouped(msgs + [m]) == Grouped(msgs) + [m]
  {
    if m.chatLabel in Labels(msgs) {
      OneMoreOfLast(msgs, m);
    } else {
      OneOfNewLabel(msgs, m);
    }
  }

  lemma Associate(a: seq<Msg>, b: seq<Msg>, c: seq<Msg>)
    ensures a + (b + c) == (a + b) + c
  {
  }

  lemma ConcatAppend(msgs: seq<Msg>, labels: seq<string>, l: string)
    ensures Concat(msgs, labels + [l]) == Concat(msgs, labels) + Of(msgs, l)
  {
    var longer := labels + [l];
    assert longer[..|longer| - 1] == labels;
  }

  lemma {:induction false} OfIsWhere(msgs: seq<Msg>, l: string) returns (i: nat)
    requires Of(msgs, l) != []
    ensures i < |msgs| && msgs[i].chatLabel == l
    decreases |msgs|
  {
    if msgs[|msgs| - 1].chatLabel == l {
      i := |msgs| - 1;
    } else {
      i := OfIsWhere(msgs[..|msgs| - 1], l);
    }
  }

  lemma {:induction false} LastLabel(msgs: seq<Msg>)
    requires Contiguous(msgs) && msgs != []
    ensures Labels(msgs)[|Labels(msgs)| - 1] == msgs[|msgs| - 1].chatLabel
    decreases |msgs|
  {
    var front, last := msgs[..|msgs| - 1], msgs[|msgs| - 1];
    if front != [] {
      LastLabel(front);
      LabelHasRows(front, last.chatLabel);
      if Of(front, last.chatLabel) != [] {
        var i := OfIsWhere(front, last.chatLabel);
        assert msgs[i].chatLabel == last.chatLabel;
        assert msgs[|front| - 1].chatLabel == last.chatLabel;
      }
    }
  }

  lemma {:induction false} ContiguousIsKept(msgs: seq<Msg>)
    requires Contiguous(msgs)
    ensures Grouped(msgs) == msgs
    decreases |msgs|
  {
    if msgs != [] {
      var front, last := msgs[..|msgs| - 1], msgs[|msgs| - 1];
      assert msgs == front + [last];
      ContiguousIsKept(front);
      if last.chatLabel in Labels(front) {
        LastLabel(msgs);
        LabelsAppend(front, last);
      }
      GroupedAppend(front, last);
    }
  }

  /** Rows that the query returned in label order are printed in exactly that order. */
  lemma SortedIsPrintedAsIs(msgs: seq<Msg>)
    requires SortedByLabel(msgs)
    ensures Grouped(msgs) == msgs
  {
    SortedIsContiguous(msgs);
    ContiguousIsKept(msgs);
  }
}
