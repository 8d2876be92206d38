/*
 * The Problems collection of the @Implements validator: a map from each
 * problem text to the ascending set of SDKs it was found on, and the
 * messages recount prints for it.
 */
module ProblemReports {
  import opened SdkText

  /** The diagnostic kind a message is printed with. */
  datatype Kind = Warning | Error

  /** One message handed to the compiler's messager. */
  datatype Diagnostic = Diagnostic(kind: Kind, text: string)

  /** One call of Problems.add. */
  datatype Report = Report(problem: string, sdkInt: int)

  // ---------------------------------------------------------------------
  // TreeSet<Integer> as a strictly ascending sequence

  ghost predicate Ascending(s: seq<int>)
  {
    forall i, j :: 0 <= i < j < |s| ==> s[i] < s[j]
  }

  /** TreeSet.add: x joins the set, which stays in ascending order. */
  function InsertSdk(s: seq<int>, x: int): (r: seq<int>)
    requires Ascending(s)
    ensures Ascending(r)
    ensures forall y :: y in r <==> y in s || y == x
    decreases |s|
  {
    if s == [] then [x]
    else if x < s[0] then [x] + s
    else if x == s[0] then s
    else
      var rest := InsertSdk(s[1..], x);
      assert forall y :: y in s[1..] ==> s[0] < y;
      ConsAscending(s[0], rest);
      [s[0]] + rest
  }

  lemma ConsAscending(h: int, s: seq<int>)
    requires Ascending(s) && forall y :: y in s ==> h < y
    ensures Ascending([h] + s)
  {
    var r := [h] + s;
    forall i, j | 0 <= i < j < |r|
      ensures r[i] < r[j]
    {
      assert r[j] == s[j - 1] && s[j - 1] in s;
      if i > 0 {
        assert r[i] == s[i - 1];
      }
    }
  }

  /** Adding an SDK already in the set changes nothing. */
  lemma {:induction false} InsertSdkPresent(s: seq<int>, x: int)
    requires Ascending(s) && x in s
    ensures InsertSdk(s, x) == s
    decreases |s|
  {
    if s[0] != x {
      assert x in s[1..];
      InsertSdkPresent(s[1..], x);
      assert s == [s[0]] + s[1..];
    }
  }

  /** Problems.add on the map of problems, as a value. */
  function AddReport(m: map<string, seq<int>>, r: Report): map<string, seq<int>>
    requires forall p :: p in m ==> Ascending(m[p])
  {
    m[r.problem := InsertSdk(if r.problem in m then m[r.problem] else [], r.sdkInt)]
  }

  /**
   * One add: the problem becomes a key if it was not one, its SDK set gains
   * exactly the new SDK and stays ascending, and every other problem keeps
   * its SDKs.
   */
  lemma AddReportEffect(m: map<string, seq<int>>, r: Report, q: string)
    requires forall p :: p in m ==> Ascending(m[p])
    ensures var m' := AddReport(m, r);
      && (q in m' <==> q in m || q == r.problem)
      && (q in m && q != r.problem ==> m'[q] == m[q])
      && (q == r.problem ==> Ascending(m'[q]) && forall x :: x in m'[q] <==> x == r.sdkInt || (q in m && x in m[q]))
  {
  }

  /**
   * The map that a sequence of Problems.add calls builds: a problem is a key
   * exactly when it was reported, and its SDKs, ascending, are exactly those
   * it was reported for.
   */
  function Aggregate(reports: seq<Report>): (m: map<string, seq<int>>)
    ensures forall p :: p in m ==> Ascending(m[p])
    decreases |reports|
  {
    if reports == [] then map[]
    else AddReport(Aggregate(reports[..|reports| - 1]), reports[|reports| - 1])
  }

  /**
   * A problem is a key of the aggregate exactly when it was reported; the
   * map is empty exactly when nothing was reported.
   */
  lemma {:induction false} AggregateKeys(reports: seq<Report>)
    ensures forall p :: p in Aggregate(reports) <==> exists x :: Report(p, x) in reports
    ensures Aggregate(reports) == map[] <==> reports == []
    decreases |reports|
  {
    if reports != [] {
      var init := reports[..|reports| - 1];
      var last := reports[|reports| - 1];
      assert reports == init + [last];
      AggregateKeys(init);
      forall p
        ensures p in Aggregate(reports) <==> exists x :: Report(p, x) in reports
      {
        if p == last.problem {
          assert Report(p, last.sdkInt) in reports;
        } else {
          assert p in Aggregate(reports) <==> p in Aggregate(init);
          assert forall x :: Report(p, x) in reports <==> Report(p, x) in init;
        }
      }
      assert last.problem in Aggregate(reports);
    }
  }

  /** The SDKs the aggregate holds for a problem are exactly those it was reported for. */
  lemma {:induction false} AggregateSdks(reports: seq<Report>)
    ensures forall p, x :: p in Aggregate(reports) ==> (x in Aggregate(reports)[p] <==> Report(p, x) in reports)
    decreases |reports|
  {
    if reports != [] {
      var init := reports[..|reports| - 1];
      var last := reports[|reports| - 1];
      assert reports == init + [last];
      AggregateSdks(init);
      AggregateKeys(init);
      var m, m' := Aggregate(init), Aggregate(reports);
      forall p, x | p in m'
        ensures x in m'[p] <==> Report(p, x) in reports
      {
        if p == last.problem {
          if p !in m {
            assert Report(p, x) !in init;
          }
        } else {
          assert m'[p] == m[p];
        }
      }
    }
  }

  /** The message recount prints for one problem and its SDKs. */
  function RecountText(problem: string, sdks: seq<int>): string
  {
    problem + " for " + (if |sdks| == 1 then "SDK " else "SDKs ") + SdkRanges(sdks)
  }

  /**
   * A recounted message opens with the problem and " for ", then "SDK "
   * for a single SDK and "SDKs " for any other number, then the ranges.
   */
  lemma RecountTextShape(problem: string, sdks: seq<int>)
    ensures var text := RecountText(problem, sdks);
      var head := problem + " for " + (if |sdks| == 1 then "SDK " else "SDKs ");
      && text[..|problem| + 5] == problem + " for "
      && text[..|head|] == head
      && text[|head|..] == SdkRanges(sdks)
      && (|sdks| == 1 <==> text[|problem| + 8] == ' ')
  {
    var head := problem + " for " + (if |sdks| == 1 then "SDK " else "SDKs ");
    assert RecountText(problem, sdks) == head + SdkRanges(sdks);
    assert head[..|problem| + 5] == problem + " for ";
  }

  /** Each problem of m with the message text recount prints for it. */
  ghost function Texts(m: map<string, seq<int>>): (t: map<string, string>)
    ensures t.Keys == m.Keys
  {
    map p | p in m :: RecountText(p, m[p])
  }

  lemma TextsAt(m: map<string, seq<int>>, p: string)
    requires p in m
    ensures Texts(m)[p] == RecountText(p, m[p])
  {
  }

  /**
   * msgs print the texts t at the given kind: one message per problem,
   * each problem's own text, and nothing else.
   */
  ghost predicate Prints(msgs: seq<Diagnostic>, kind: Kind, t: map<string, string>)
  {
    && |msgs| == |t|
    && (forall p :: p in t ==> Diagnostic(kind, t[p]) in msgs)
    && (forall d :: d in msgs ==> d.kind == kind && d.text in t.Values)
  }

  /** msgs are the messages recount prints for the map m at the given kind. */
  ghost predicate RecountOf(msgs: seq<Diagnostic>, kind: Kind, m: map<string, seq<int>>)
  {
    Prints(msgs, kind, Texts(m))
  }

  /** Builds the message for one problem the way recount's loop body does. */
  method RecountMessage(problem: string, sdks: seq<int>) returns (text: string)
    ensures text == RecountText(problem, sdks)
  {
    text := problem + " for " + (if |sdks| == 1 then "SDK " else "SDKs ");
    var ranges := AppendSdkRanges(sdks);
    text := text + ranges;
  }

  /** Problems: the problems found for one method, each with its SDKs. */
  class Problems {
    const kind: Kind
    var problems: map<string, seq<int>>
    /** Every add call so far, in order. */
    ghost var added: seq<Report>

    ghost predicate Valid()
      reads this
    {
      problems == Aggregate(added)
    }

    constructor (kind: Kind)
      ensures Valid() && this.kind == kind && added == []
    {
      this.kind := kind;
      problems := map[];
      added := [];
    }

    method Add(problem: string, sdkInt: int)
      requires Valid()
      modifies this
      ensures Valid() && added == old(added) + [Report(problem, sdkInt)]
    {
      var sdks := if problem in problems then problems[problem] else [];
      problems := problems[problem := InsertSdk(sdks, sdkInt)];
      AggregateSnoc(added, Report(problem, sdkInt));
      added := added + [Report(problem, sdkInt)];
    }

    /** any(): at least one add has happened. */
    function Any(): (r: bool)
      requires Valid()
      reads this
      ensures r <==> added != []
    {
      AggregateKeys(added);
      problems != map[]
    }

    /**
     * recount: one message per problem, of this object's kind, in the map's
     * iteration order (which the source leaves to HashMap and the model
     * leaves open).
     */
    method Recount() returns (msgs: seq<Diagnostic>)
      ensures RecountOf(msgs, kind, problems)
    {
      msgs := RecountAll(kind, problems);
    }
  }

  /** The loop of recount over the entries of the map m, in the map's iteration order. */
  method RecountAll(kind: Kind, m: map<string, seq<int>>) returns (msgs: seq<Diagnostic>)
    ensures RecountOf(msgs, kind, m)
  {
    var order := EntryOrder(m.Keys);
    ghost var t := Texts(m);
    msgs := [];
    for i := 0 to |order|
      invariant msgs == Messages(kind, t, order[..i])
    {
      var p := order[i];
      VisitedIsElements(order);
      var text := RecountMessage(p, m[p]);
      TextsAt(m, p);
      MessagesGrow(kind, t, order, i);
      msgs := msgs + [Diagnostic(kind, text)];
    }
    assert order[..|order|] == order;
    MessagesPrint(kind, t, order);
  }

  /**
   * The order in which a HashMap hands out its keys, which the source does
   * not fix: each key once, in some order.
   */
  method EntryOrder(keys: set<string>) returns (order: seq<string>)
    ensures Visited(order) == keys && |order| == |keys|
  {
    order := [];
    var rest := keys;
    while rest != {}
      invariant EntriesSplit(keys, order, rest)
      decreases |rest|
    {
      var p :| p in rest;
      EntryStep(keys, order, rest, p);
      order := order + [p];
      rest := rest - {p};
    }
    assert Visited(order) == keys;
  }

  /** The keys are split into those listed in `order`, each once, and the rest. */
  ghost predicate EntriesSplit(keys: set<string>, order: seq<string>, rest: set<string>)
  {
    rest !! Visited(order) && rest + Visited(order) == keys && |Visited(order)| == |order|
  }

  /** Moving one key of the rest to the end of the order keeps the split. */
  lemma EntryStep(keys: set<string>, order: seq<string>, rest: set<string>, p: string)
    requires EntriesSplit(keys, order, rest) && p in rest
    ensures EntriesSplit(keys, order + [p], rest - {p}) && |rest - {p}| < |rest|
  {
    VisitedSnoc(order, p);
    var seen, left := Visited(order), rest - {p};
    assert p !in seen;
    assert |seen + {p}| == |seen| + 1;
    assert rest == left + {p} && p !in left;
    assert |rest| == |left| + 1;
    assert left !! seen + {p};
    assert left + (seen + {p}) == rest + seen;
  }

  /** The keys listed in `order`. */
  ghost function Visited(order: seq<string>): set<string>
  {
    if order == [] then {} else Visited(order[..|order| - 1]) + {Last(order)}
  }

  lemma VisitedSnoc(order: seq<string>, p: string)
    ensures Visited(order + [p]) == Visited(order) + {p}
  {
    assert (order + [p])[..|order|] == order;
  }

  /** The messages printed for the problems in `order`, in that order. */
  ghost function Messages(kind: Kind, t: map<string, string>, order: seq<string>): (msgs: seq<Diagnostic>)
    ensures |msgs| == |order|
  {
    if order == [] then []
    else
      var p := Last(order);
      Messages(kind, t, order[..|order| - 1]) + [Diagnostic(kind, if p in t then t[p] else "")]
  }

  /** One more round of the loop appends the message of order[i]. */
  lemma MessagesGrow(kind: Kind, t: map<string, string>, order: seq<string>, i: nat)
    requires i < |order|
    ensures Messages(kind, t, order[..i + 1]) ==
      Messages(kind, t, order[..i]) + [Diagnostic(kind, if order[i] in t then t[order[i]] else "")]
  {
    assert order[..i + 1][..i] == order[..i];
  }

  /** A problem was visited exactly when it occurs in the order. */
  lemma {:induction false} VisitedIsElements(order: seq<string>)
    ensures forall q :: q in Visited(order) <==> q in order
  {
    if order != [] {
      var init := order[..|order| - 1];
      VisitedIsElements(init);
      assert order == init + [Last(order)];
    }
  }

  /** The i-th message is the text of the i-th problem. */
  lemma {:induction false} MessagesAt(kind: Kind, t: map<string, string>, order: seq<string>)
    requires Visited(order) <= t.Keys
    ensures forall i :: 0 <= i < |order| ==> order[i] in t && Messages(kind, t, order)[i] == Diagnostic(kind, t[order[i]])
  {
    VisitedIsElements(order);
    if order != [] {
      var init := order[..|order| - 1];
      VisitedIsElements(init);
      MessagesAt(kind, t, init);
    }
  }

  /** Once every problem is visited, the messages print all the texts. */
  lemma MessagesPrint(kind: Kind, t: map<string, string>, order: seq<string>)
    requires Visited(order) == t.Keys && |Visited(order)| == |order|
    ensures Prints(Messages(kind, t, order), kind, t)
  {
    var msgs := Messages(kind, t, order);
    VisitedIsElements(order);
    MessagesAt(kind, t, order);
    forall p | p in t
      ensures Diagnostic(kind, t[p]) in msgs
    {
      var i :| 0 <= i < |order| && order[i] == p;
      assert msgs[i] == Diagnostic(kind, t[p]);
    }
    forall d | d in msgs
      ensures d.kind == kind && d.text in t.Values
    {
      var i :| 0 <= i < |msgs| && msgs[i] == d;
      assert order[i] in t;
    }
  }

  /** Adding one report to the log adds it to the aggregate. */
  lemma AggregateSnoc(reports: seq<Report>, r: Report)
    ensures Aggregate(reports + [r]) == AddReport(Aggregate(reports), r)
  {
    assert (reports + [r])[..|reports|] == reports;
  }

}
