/**
 * Assets/Scripts/PersonDescriptionLister.cs: a text report of the people in the scene.
 * Grouped, it has one line "{text} x{count}" per distinct short description, most frequent
 * first and in ordinal (character-code) order among equals; ungrouped, one line "{name}: {text}" per person.
 * Lines are joined with "\n". The people the engine finds are an input sequence, and
 * LINQ's default string order is taken as the ordinal order `LexLe`.
 */
module DescriptionLister {
  import opened Text
  import opened PersonDescriptors

  /** One group of the report: a short description and how many people have it. */
  datatype Group = Group(key: string, count: nat)

  // ---------- grouping ----------

  /** The people seen so far, grouped by description in order of first appearance, as
   *  `GroupBy` yields them: `t` joins its group or opens a new one at the end. */
  function AddText(gs: seq<Group>, t: string): seq<Group>
  {
    if gs == [] then [Group(t, 1)]
    else if gs[0].key == t then [Group(t, gs[0].count + 1)] + gs[1..]
    else [gs[0]] + AddText(gs[1..], t)
  }

  /** `GroupBy(pd => pd.ShortText())`. */
  function GroupsOf(texts: seq<string>): seq<Group>
  {
    if texts == [] then []
    else AddText(GroupsOf(texts[..|texts| - 1]), texts[|texts| - 1])
  }

  /** The groups' descriptions, in order. */
  function Keys(gs: seq<Group>): seq<string>
  {
    seq(|gs|, i requires 0 <= i < |gs| => gs[i].key)
  }

  predicate Distinct(ks: seq<string>)
  {
    forall i, j :: 0 <= i < j < |ks| ==> ks[i] != ks[j]
  }

  /** The count of the first group with description `k`, or 0 when there is none. */
  function CountOf(gs: seq<Group>, k: string): nat
  {
    if gs == [] then 0 else if gs[0].key == k then gs[0].count else CountOf(gs[1..], k)
  }

  /** The number of people the groups account for. */
  function Total(gs: seq<Group>): nat
  {
    if gs == [] then 0 else gs[0].count + Total(gs[1..])
  }

  /** Adding a person opens a group, at the end, exactly when its description is new. */
  lemma {:induction false} AddTextKeys(gs: seq<Group>, t: string)
    ensures Keys(AddText(gs, t)) == if t in Keys(gs) then Keys(gs) else Keys(gs) + [t]
    decreases |gs|
  {
    var r := AddText(gs, t);
    if gs == [] {
    } else if gs[0].key == t {
      assert Keys(gs)[0] == t;
      assert Keys(r) == Keys(gs);
    } else {
      AddTextKeys(gs[1..], t);
      assert Keys(gs) == [gs[0].key] + Keys(gs[1..]);
      assert Keys(r) == [gs[0].key] + Keys(AddText(gs[1..], t));
    }
  }

  /** Adding a person adds one to the count of its own description and to no other. */
  lemma {:induction false} AddTextCounts(gs: seq<Group>, t: string, k: string)
    ensures CountOf(AddText(gs, t), k) == CountOf(gs, k) + (if k == t then 1 else 0)
    ensures Total(AddText(gs, t)) == Total(gs) + 1
    decreases |gs|
  {
    var r := AddText(gs, t);
    if gs == [] {
    } else if gs[0].key == t {
      assert r[1..] == gs[1..];
    } else {
      AddTextCounts(gs[1..], t, k);
      assert r[1..] == AddText(gs[1..], t);
    }
  }

  /** Grouping gives one group per distinct description, in order of first appearance,
   *  counting exactly the people with that description. */
  lemma {:induction false} GroupsOfSpec(texts: seq<string>)
    ensures Distinct(Keys(GroupsOf(texts)))
    ensures forall k :: k in Keys(GroupsOf(texts)) <==> k in texts
    ensures forall k :: CountOf(GroupsOf(texts), k) == multiset(texts)[k]
    ensures Total(GroupsOf(texts)) == |texts|
    decreases |texts|
  {
    if texts != [] {
      var init := texts[..|texts| - 1];
      var t := texts[|texts| - 1];
      assert texts == init + [t];
      GroupsOfSpec(init);
      var gs := GroupsOf(init);
      AddTextKeys(gs, t);
      forall k ensures CountOf(AddText(gs, t), k) == multiset(texts)[k] {
        AddTextCounts(gs, t, k);
      }
      AddTextCounts(gs, t, t);
    }
  }

  /** Once descriptions are distinct, a group's count is the one looked up by its key. */
  lemma {:induction false} CountOfIsCount(gs: seq<Group>, i: int)
    requires Distinct(Keys(gs)) && 0 <= i < |gs|
    ensures CountOf(gs, gs[i].key) == gs[i].count
    decreases |gs|
  {
    if i > 0 {
      assert Keys(gs)[0] != Keys(gs)[i];
      assert Keys(gs[1..]) == Keys(gs)[1..];
      CountOfIsCount(gs[1..], i - 1);
    }
  }

  // ---------- ordering ----------

  /** `OrderByDescending(g => g.Count()).ThenBy(g => g.Key)`: `a` may come before `b`. */
  predicate Before(a: Group, b: Group)
  {
    a.count > b.count || (a.count == b.count && LexLe(a.key, b.key))
  }

  lemma BeforeTotal(a: Group, b: Group)
    ensures Before(a, b) || Before(b, a)
  {
    LexLeTotal(a.key, b.key);
  }

  lemma BeforeTransitive(a: Group, b: Group, c: Group)
    requires Before(a, b) && Before(b, c)
    ensures Before(a, c)
  {
    if a.count == b.count == c.count {
      LexLeTransitive(a.key, b.key, c.key);
    }
  }

  /** Groups with distinct descriptions are never tied. */
  lemma BeforeAntisymmetric(a: Group, b: Group)
    requires Before(a, b) && Before(b, a)
    ensures a.key == b.key
  {
    LexLeAntisymmetric(a.key, b.key);
  }

  predicate Ordered(gs: seq<Group>)
  {
    forall i, j :: 0 <= i < j < |gs| ==> Before(gs[i], gs[j])
  }

  /** Inserts one group into an ordered report. */
  function Insert(g: Group, gs: seq<Group>): seq<Group>
  {
    if gs == [] then [g]
    else if Before(g, gs[0]) then [g] + gs
    else [gs[0]] + Insert(g, gs[1..])
  }

  /** The report order, as an insertion sort. */
  function Sort(gs: seq<Group>): seq<Group>
  {
    if gs == [] then [] else Insert(gs[0], Sort(gs[1..]))
  }

  lemma {:induction false} InsertPermutes(g: Group, gs: seq<Group>)
    ensures multiset(Insert(g, gs)) == multiset(gs) + multiset{g}
    ensures Total(Insert(g, gs)) == Total(gs) + g.count
    decreases |gs|
  {
    if gs == [] {
    } else if Before(g, gs[0]) {
      assert Insert(g, gs)[1..] == gs;
    } else {
      InsertPermutes(g, gs[1..]);
      assert gs == [gs[0]] + gs[1..];
      assert Insert(g, gs)[1..] == Insert(g, gs[1..]);
    }
  }

  lemma {:induction false} OrderedTail(gs: seq<Group>)
    requires Ordered(gs) && gs != []
    ensures Ordered(gs[1..])
    ensures forall x | x in gs[1..] :: Before(gs[0], x)
  {
    forall i, j | 0 <= i < j < |gs| - 1 ensures Before(gs[1..][i], gs[1..][j]) {
      assert gs[1..][i] == gs[i + 1] && gs[1..][j] == gs[j + 1];
    }
    forall x | x in gs[1..] ensures Before(gs[0], x) {
      var m :| 0 <= m < |gs| - 1 && gs[1..][m] == x;
      assert gs[m + 1] == x;
    }
  }

  lemma {:induction false} InsertOrdered(g: Group, gs: seq<Group>)
    requires Ordered(gs)
    ensures Ordered(Insert(g, gs))
    decreases |gs|
  {
    var r := Insert(g, gs);
    if gs == [] {
    } else if Before(g, gs[0]) {
      forall i, j | 0 <= i < j < |r| ensures Before(r[i], r[j]) {
        if i == 0 && j > 1 {
          BeforeTransitive(g, gs[0], gs[j - 1]);
        }
      }
    } else {
      var rest := Insert(g, gs[1..]);
      OrderedTail(gs);
      InsertOrdered(g, gs[1..]);
      InsertPermutes(g, gs[1..]);
      BeforeTotal(g, gs[0]);
      assert r[1..] == rest;
      forall j | 0 <= j < |rest| ensures Before(gs[0], rest[j]) {
        assert rest[j] in multiset(rest);
        if rest[j] != g {
          assert rest[j] in multiset(gs[1..]);
        }
      }
      forall i, j | 0 <= i < j < |r| ensures Before(r[i], r[j]) {
        if i == 0 {
          assert r[j] == rest[j - 1];
        } else {
          assert r[i] == rest[i - 1] && r[j] == rest[j - 1];
        }
      }
    }
  }

  lemma {:induction false} SortOrdered(gs: seq<Group>)
    ensures Ordered(Sort(gs))
    decreases |gs|
  {
    if gs != [] {
      SortOrdered(gs[1..]);
      InsertOrdered(gs[0], Sort(gs[1..]));
    }
  }

  lemma {:induction false} SortPermutes(gs: seq<Group>)
    ensures multiset(Sort(gs)) == multiset(gs)
    ensures Total(Sort(gs)) == Total(gs)
    decreases |gs|
  {
    if gs != [] {
      SortPermutes(gs[1..]);
      InsertPermutes(gs[0], Sort(gs[1..]));
      assert gs == [gs[0]] + gs[1..];
    }
  }

  /** Sorting orders the groups and only reorders them. */
  lemma SortSpec(gs: seq<Group>)
    ensures Ordered(Sort(gs))
    ensures multiset(Sort(gs)) == multiset(gs)
    ensures Total(Sort(gs)) == Total(gs)
  {
    SortOrdered(gs);
    SortPermutes(gs);
  }

  /** With distinct descriptions, no group occurs twice. */
  lemma {:induction false} AtMostOnce(a: seq<Group>, x: Group)
    requires Distinct(Keys(a))
    ensures multiset(a)[x] <= 1
    decreases |a|
  {
    if a != [] {
      assert a == [a[0]] + a[1..];
      assert Keys(a[1..]) == Keys(a)[1..];
      AtMostOnce(a[1..], x);
      if a[0] == x {
        forall m | 0 <= m < |a| - 1 ensures a[1..][m] != x {
          assert Keys(a)[0] != Keys(a)[m + 1];
        }
        assert x !in a[1..];
      }
    }
  }

  /** A group at two positions occurs twice. */
  lemma TwiceCounted(b: seq<Group>, i: int, j: int)
    requires 0 <= i < j < |b|
    ensures b[i] == b[j] ==> multiset(b)[b[i]] >= 2
  {
    assert b == b[..j] + b[j..];
    assert b[i] == b[..j][i] && b[j] == b[j..][0];
  }

  /** A reordering of groups with distinct descriptions, in which equal descriptions
   *  carry equal counts, keeps its descriptions distinct. */
  lemma {:induction false} DistinctKeysPermuted(a: seq<Group>, b: seq<Group>)
    requires Distinct(Keys(a)) && multiset(a) == multiset(b)
    requires forall i, j :: 0 <= i < |b| && 0 <= j < |b| && b[i].key == b[j].key ==> b[i].count == b[j].count
    ensures Distinct(Keys(b))
  {
    forall i, j | 0 <= i < j < |b| ensures Keys(b)[i] != Keys(b)[j] {
      AtMostOnce(a, b[i]);
      TwiceCounted(b, i, j);
    }
  }

  /** A description present before a reordering is present after it. */
  lemma KeyPermuted(a: seq<Group>, b: seq<Group>, k: string)
    requires multiset(a) == multiset(b) && k in Keys(a)
    ensures k in Keys(b)
  {
    var m :| 0 <= m < |a| && Keys(a)[m] == k;
    assert a[m] in multiset(b);
    var i :| 0 <= i < |b| && b[i] == a[m];
    assert Keys(b)[i] == k;
  }

  /** The grouped report's groups: grouped, then ordered. */
  function Grouped(texts: seq<string>): seq<Group>
  {
    Sort(GroupsOf(texts))
  }

  /** Every group of the grouped report counts exactly the people with its description. */
  lemma GroupedCounts(texts: seq<string>)
    ensures forall i :: 0 <= i < |Grouped(texts)| ==>
      Grouped(texts)[i].count == multiset(texts)[Grouped(texts)[i].key]
  {
    var g0 := GroupsOf(texts);
    var gs := Grouped(texts);
    GroupsOfSpec(texts);
    SortSpec(g0);
    forall i | 0 <= i < |gs| ensures gs[i].count == multiset(texts)[gs[i].key] {
      assert gs[i] in multiset(g0);
      var m :| 0 <= m < |g0| && g0[m] == gs[i];
      CountOfIsCount(g0, m);
    }
  }

  /** The grouped report has one group per distinct description, counting exactly its
   *  people, most frequent first and in ordinal order among equals; the counts add up to the
   *  number of people listed. */
  lemma GroupedSpec(texts: seq<string>)
    ensures var gs := Grouped(texts);
      && Distinct(Keys(gs))
      && (forall k :: k in Keys(gs) <==> k in texts)
      && (forall i :: 0 <= i < |gs| ==> gs[i].count == multiset(texts)[gs[i].key])
      && Ordered(gs)
      && Total(gs) == |texts|
  {
    var g0 := GroupsOf(texts);
    var gs := Grouped(texts);
    GroupsOfSpec(texts);
    SortSpec(g0);
    GroupedCounts(texts);
    forall k ensures k in Keys(gs) <==> k in Keys(g0) {
      if k in Keys(g0) {
        KeyPermuted(g0, gs, k);
      }
      if k in Keys(gs) {
        KeyPermuted(gs, g0, k);
      }
    }
    DistinctKeysPermuted(g0, gs);
  }

  /** The first of an ordered report may come before any of its groups. */
  lemma HeadBeforeAll(a: seq<Group>, x: Group)
    requires Ordered(a) && x in a
    ensures Before(a[0], x)
  {
    var m :| 0 <= m < |a| && a[m] == x;
    if m == 0 {
      BeforeTotal(x, x);
    }
  }

  /** With distinct descriptions, a description fixes its position. */
  lemma KeyPosition(a: seq<Group>, i: int, j: int)
    requires Distinct(Keys(a)) && 0 <= i < |a| && 0 <= j < |a|
    ensures a[i].key == a[j].key ==> i == j
  {
    assert Keys(a)[i] == a[i].key && Keys(a)[j] == a[j].key;
  }

  /** Two orderings of the same groups with distinct descriptions start alike. */
  lemma HeadsEqual(a: seq<Group>, b: seq<Group>)
    requires Ordered(a) && Ordered(b) && Distinct(Keys(a)) && multiset(a) == multiset(b)
    requires a != []
    ensures b != [] && a[0] == b[0]
  {
    assert |b| == |multiset(b)| == |a|;
    assert b[0] in multiset(a) && a[0] in multiset(b);
    HeadBeforeAll(a, b[0]);
    HeadBeforeAll(b, a[0]);
    BeforeAntisymmetric(a[0], b[0]);
    var m :| 0 <= m < |a| && a[m] == b[0];
    KeyPosition(a, 0, m);
  }

  /** Two reorderings that start alike go on alike. */
  lemma TailsPermuted(a: seq<Group>, b: seq<Group>)
    requires a != [] && b != [] && a[0] == b[0] && multiset(a) == multiset(b)
    ensures multiset(a[1..]) == multiset(b[1..])
  {
    assert a == [a[0]] + a[1..] && b == [b[0]] + b[1..];
    assert multiset(a[1..]) == multiset(a) - multiset{a[0]};
    assert multiset(b[1..]) == multiset(b) - multiset{b[0]};
  }

  /** Groups with distinct descriptions have only one order: whichever stable sort
   *  produced them, the result is the same. */
  lemma {:induction false} OrderedUnique(a: seq<Group>, b: seq<Group>)
    requires Ordered(a) && Ordered(b) && Distinct(Keys(a)) && multiset(a) == multiset(b)
    ensures a == b
    decreases |a|
  {
    if a == [] {
      assert |b| == |multiset(b)| == 0;
    } else {
      HeadsEqual(a, b);
      TailsPermuted(a, b);
      OrderedTail(a);
      OrderedTail(b);
      assert Keys(a[1..]) == Keys(a)[1..];
      OrderedUnique(a[1..], b[1..]);
    }
  }

  /** Any ordering of the groups by descending count and then description is the
   *  grouped report's. */
  lemma GroupedOrderUnique(texts: seq<string>, gs: seq<Group>)
    requires multiset(gs) == multiset(GroupsOf(texts)) && Ordered(gs)
    ensures gs == Grouped(texts)
  {
    GroupedSpec(texts);
    SortSpec(GroupsOf(texts));
    OrderedUnique(Grouped(texts), gs);
  }

  // ---------- the report ----------

  /** "{key} x{count}". */
  function GroupLine(g: Group): string
  {
    g.key + " x" + NatToString(g.count)
  }

  /** The grouped report's lines. */
  function GroupedLines(texts: seq<string>): (lines: seq<string>)
    ensures |lines| == |Grouped(texts)|
    ensures forall i :: 0 <= i < |lines| ==> lines[i] == GroupLine(Grouped(texts)[i])
  {
    var gs := Grouped(texts);
    seq(|gs|, i requires 0 <= i < |gs| => GroupLine(gs[i]))
  }

  /** "{name}: {text}" for every person, in list order. */
  function PersonLines(names: seq<string>, texts: seq<string>): (lines: seq<string>)
    requires |names| == |texts|
    ensures |lines| == |texts|
    ensures forall i :: 0 <= i < |lines| ==> lines[i] == names[i] + ": " + texts[i]
  {
    seq(|texts|, i requires 0 <= i < |texts| => names[i] + ": " + texts[i])
  }

  /** `Refresh`'s report for the people with names `names` and descriptions `texts`. */
  function Report(groupByDescriptor: bool, names: seq<string>, texts: seq<string>): string
    requires |names| == |texts|
  {
    if groupByDescriptor then Join(GroupedLines(texts), "\n") else Join(PersonLines(names, texts), "\n")
  }

  /** Nobody listed gives an empty report. */
  lemma EmptyReport(groupByDescriptor: bool)
    ensures Report(groupByDescriptor, [], []) == ""
  {
    assert GroupsOf([]) == [];
  }

  /** Nobody's description holds a line break, so neither does a grouped line. */
  lemma ShortTextOneLine(j: JacketColor, h: HelmetColor)
    ensures '\n' !in ShortText(j, h)
  {
  }

  /** The grouped report splits back into its lines when no description holds a line
   *  break: the separator occurs only between lines. */
  lemma GroupedReportSplits(names: seq<string>, texts: seq<string>)
    requires |names| == |texts| && texts != []
    requires forall t | t in texts :: '\n' !in t
    ensures Split(Report(true, names, texts), '\n') == GroupedLines(texts)
  {
    var lines := GroupedLines(texts);
    var gs := Grouped(texts);
    GroupedSpec(texts);
    assert texts[0] in Keys(gs);
    forall k | 0 <= k < |lines| ensures '\n' !in lines[k] {
      var d := NatToString(gs[k].count);
      assert lines[k] == gs[k].key + " x" + d;
      assert Keys(gs)[k] in texts;
      forall m | 0 <= m < |d| ensures d[m] != '\n' {
        assert IsDigit(d[m]);
      }
    }
    SplitJoin(lines, '\n');
  }

  /** The ungrouped report splits back into one line per person when no name or
   *  description holds a line break. */
  lemma PersonReportSplits(names: seq<string>, texts: seq<string>)
    requires |names| == |texts| && texts != []
    requires forall i | 0 <= i < |texts| :: '\n' !in names[i] && '\n' !in texts[i]
    ensures Split(Report(false, names, texts), '\n') == PersonLines(names, texts)
  {
    var lines := PersonLines(names, texts);
    forall k | 0 <= k < |lines| ensures '\n' !in lines[k] {
      assert lines[k] == names[k] + ": " + texts[k];
    }
    SplitJoin(lines, '\n');
  }

  /** The people's descriptions and names, in list order. */
  function Texts(list: seq<PersonDescriptor>): (ts: seq<string>)
    reads list
    ensures |ts| == |list|
    ensures forall i :: 0 <= i < |ts| ==> ts[i] == ShortText(list[i].jacketColor, list[i].helmet)
  {
    seq(|list|, i reads list requires 0 <= i < |list| => ShortText(list[i].jacketColor, list[i].helmet))
  }

  function Names(list: seq<PersonDescriptor>): (ns: seq<string>)
    reads list
    ensures |ns| == |list|
    ensures forall i :: 0 <= i < |ns| ==> ns[i] == list[i].name
  {
    seq(|list|, i reads list requires 0 <= i < |list| => list[i].name)
  }

  /** For people in a scene the grouped report reads back, line by line, as one
   *  "{description} x{count}" per distinct description. */
  lemma PeopleReportSplits(list: seq<PersonDescriptor>)
    requires list != []
    ensures Split(Report(true, Names(list), Texts(list)), '\n') == GroupedLines(Texts(list))
  {
    var texts := Texts(list);
    forall t | t in texts ensures '\n' !in t {
      var i :| 0 <= i < |texts| && texts[i] == t;
      ShortTextOneLine(list[i].jacketColor, list[i].helmet);
    }
    GroupedReportSplits(Names(list), texts);
  }

  class PersonDescriptionLister {
    var autoRefreshOnStart: bool
    var includeInactive: bool
    var groupByDescriptor: bool
    var logToConsole: bool
    var report: string

    /** The component's field initialisers. */
    constructor ()
      ensures autoRefreshOnStart && includeInactive && groupByDescriptor && logToConsole
      ensures report == ""
    {
      autoRefreshOnStart := true;
      includeInactive := true;
      groupByDescriptor := true;
      logToConsole := true;
      report := "";
    }

    /** `Refresh`: stores the report for the people found. */
    method Refresh(list: seq<PersonDescriptor>)
      modifies this`report
      ensures report == Report(groupByDescriptor, Names(list), Texts(list))
    {
      report := Report(groupByDescriptor, Names(list), Texts(list));
    }

    /** `Start`: refreshes once when `autoRefreshOnStart` is set. */
    method Start(list: seq<PersonDescriptor>)
      modifies this`report
      ensures autoRefreshOnStart ==> report == Report(groupByDescriptor, Names(list), Texts(list))
      ensures !autoRefreshOnStart ==> report == old(report)
    {
      if autoRefreshOnStart {
        Refresh(list);
      }
    }
  }
}
