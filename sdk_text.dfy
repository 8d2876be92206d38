/*
 * The text recount prints for one problem's set of SDKs: the decimal
 * digits of an int, the cut of a sorted SDK list into runs of consecutive
 * SDKs, the run-by-run statement of the text and recount's own loop.
 */
module SdkText {
  import opened Wrappers

  // ---------------------------------------------------------------------
  // Decimal text of an int, as StringBuilder.append(int) writes it

  function Digit(d: nat): char
    requires d < 10
  {
    ('0' as int + d) as char
  }

  predicate AllDigits(s: string)
  {
    forall i :: 0 <= i < |s| ==> '0' <= s[i] <= '9'
  }

  function NatToString(n: nat): (s: string)
    ensures |s| >= 1 && AllDigits(s)
    ensures n >= 10 ==> s[0] != '0'
    decreases n
  {
    if n < 10 then [Digit(n)] else NatToString(n / 10) + [Digit(n % 10)]
  }

  function IntToString(i: int): string
  {
    if i < 0 then "-" + NatToString(-i) else NatToString(i)
  }

  /** The value of a string of decimal digits. */
  function ParseNat(s: string): nat
    requires AllDigits(s)
  {
    if s == [] then 0 else ParseNat(s[..|s| - 1]) * 10 + (s[|s| - 1] - '0') as nat
  }

  /** The digits written for n read back as n. */
  lemma {:induction false} ParseNatToString(n: nat)
    ensures ParseNat(NatToString(n)) == n
    decreases n
  {
    var s := NatToString(n);
    if n >= 10 {
      ParseNatToString(n / 10);
      assert s[..|s| - 1] == NatToString(n / 10);
    }
  }

  /**
   * The text of an int is a minus sign exactly for a negative value,
   * followed by digits with no leading zero that read back as its magnitude.
   */
  lemma IntToStringReadsBack(i: int)
    ensures var s := IntToString(i);
      && (i < 0 <==> s[0] == '-')
      && var digits := if i < 0 then s[1..] else s;
      && digits != [] && AllDigits(digits)
      && (|digits| > 1 ==> digits[0] != '0')
      && ParseNat(digits) == (if i < 0 then -i else i)
  {
    var n := if i < 0 then -i else i;
    ParseNatToString(n);
    assert (if i < 0 then IntToString(i)[1..] else IntToString(i)) == NatToString(n);
  }

  // ---------------------------------------------------------------------
  // The SDK ranges recount prints

  function Last<T>(s: seq<T>): T
    requires s != []
  {
    s[|s| - 1]
  }

  /**
   * s cut into its maximal runs of consecutive ints, in order; a new run
   * starts wherever an element is not its predecessor plus one.
   */
  function Runs(s: seq<int>): (rs: seq<seq<int>>)
    ensures s == [] <==> rs == []
    ensures forall j :: 0 <= j < |rs| ==> rs[j] != []
    ensures s != [] ==> Last(Last(rs)) == Last(s)
    decreases |s|
  {
    if |s| <= 1 then (if s == [] then [] else [s])
    else
      var rs := Runs(s[..|s| - 1]);
      assert Last(s[..|s| - 1]) == s[|s| - 2];
      if Last(s) == s[|s| - 2] + 1 then rs[..|rs| - 1] + [Last(rs) + [Last(s)]]
      else rs + [[Last(s)]]
  }

  function Flatten(rs: seq<seq<int>>): seq<int>
  {
    if rs == [] then [] else Flatten(rs[..|rs| - 1]) + Last(rs)
  }

  /** The runs, read in order, are s again. */
  lemma {:induction false} RunsFlatten(s: seq<int>)
    ensures Flatten(Runs(s)) == s
    decreases |s|
  {
    if |s| > 1 {
      var init := s[..|s| - 1];
      var rs := Runs(init);
      RunsFlatten(init);
      if Last(s) == s[|s| - 2] + 1 {
        var rs' := rs[..|rs| - 1] + [Last(rs) + [Last(s)]];
        assert rs'[..|rs'| - 1] == rs[..|rs| - 1];
        assert Flatten(rs) == Flatten(rs[..|rs| - 1]) + Last(rs);
      } else {
        var rs' := rs + [[Last(s)]];
        assert rs'[..|rs'| - 1] == rs;
      }
      assert s == init + [Last(s)];
    }
  }

  /** Every element of r is its predecessor plus one. */
  predicate Consecutive(r: seq<int>)
  {
    forall k :: 0 < k < |r| ==> r[k] == r[k - 1] + 1
  }

  /** Inside a run every element is its predecessor plus one. */
  lemma {:induction false} RunsConsecutive(s: seq<int>)
    ensures forall j :: 0 <= j < |Runs(s)| ==> Consecutive(Runs(s)[j])
    decreases |s|
  {
    if |s| > 1 {
      var init := s[..|s| - 1];
      RunsConsecutive(init);
      var rs := Runs(init);
      assert Last(init) == s[|s| - 2];
      if Last(s) == s[|s| - 2] + 1 {
        var r := Last(rs) + [Last(s)];
        assert Consecutive(Last(rs));
        assert Consecutive(r) by {
          forall k | 0 < k < |r|
            ensures r[k] == r[k - 1] + 1
          {
            if k < |r| - 1 {
              assert r[k] == Last(rs)[k] && r[k - 1] == Last(rs)[k - 1];
            }
          }
        }
        var rs' := rs[..|rs| - 1] + [r];
        assert forall j :: 0 <= j < |rs'| - 1 ==> rs'[j] == rs[j];
      } else {
        var rs' := rs + [[Last(s)]];
        assert forall j :: 0 <= j < |rs'| - 1 ==> rs'[j] == rs[j];
      }
    }
  }

  /** Between two neighbouring runs there is a gap, so the runs are maximal. */
  lemma {:induction false} RunsGaps(s: seq<int>)
    ensures forall j :: 0 < j < |Runs(s)| ==> Runs(s)[j][0] != Last(Runs(s)[j - 1]) + 1
    decreases |s|
  {
    if |s| > 1 {
      var init := s[..|s| - 1];
      RunsGaps(init);
      assert Last(init) == s[|s| - 2];
    }
  }

  /**
   * The text of runs that are followed by another run: each prints as
   * "first-last/", whatever its length.
   */
  function ClosedRuns(rs: seq<seq<int>>): string
    requires forall j :: 0 <= j < |rs| ==> rs[j] != []
  {
    if rs == [] then ""
    else ClosedRuns(rs[..|rs| - 1]) + IntToString(Last(rs)[0]) + "-" + IntToString(Last(Last(rs))) + "/"
  }

  /** The text recount has written once the SDKs of p are read, before any final "-last". */
  function OpenText(p: seq<int>): string
    requires p != []
  {
    var rs := Runs(p);
    ClosedRuns(rs[..|rs| - 1]) + IntToString(Last(rs)[0])
  }

  /**
   * The SDK text of recount, stated run by run: every run but the last
   * prints "first-last/", and the last run prints "first", followed by
   * "-last" when it holds two or more SDKs.
   */
  function SdkRanges(sdks: seq<int>): string
  {
    if sdks == [] then ""
    else if |Last(Runs(sdks))| >= 2 then OpenText(sdks) + "-" + IntToString(Last(sdks))
    else OpenText(sdks)
  }

  /** The SDK recount holds back as lastSdk once the SDKs of p are read. */
  function Pending(p: seq<int>): Option<int>
    requires p != []
  {
    var r := Last(Runs(p));
    if |r| >= 2 then Some(Last(r)) else None
  }

  /** A single SDK opens the text with its number. */
  lemma OpenTextSingle(p: seq<int>)
    requires |p| == 1
    ensures OpenText(p) == IntToString(p[0])
  {
  }

  /** The text of p is its open text, closed by "-" and the pending SDK if there is one. */
  lemma SdkRangesOfPending(p: seq<int>)
    requires p != []
    ensures SdkRanges(p) == OpenText(p) + (if Pending(p).Some? then "-" + IntToString(Pending(p).value) else "")
  {
  }

  /** Reading an SDK x after p that does not follow Last(p) closes the open run. */
  lemma OpenTextGap(p: seq<int>, x: int)
    requires p != [] && x != Last(p) + 1
    ensures OpenText(p + [x]) == OpenText(p) + "-" + IntToString(Last(p)) + "/" + IntToString(x)
    ensures Pending(p + [x]) == None
  {
    var q := p + [x];
    assert q[..|q| - 1] == p;
    var rs := Runs(p);
    var rs' := rs + [[x]];
    assert Runs(q) == rs';
    assert rs'[..|rs'| - 1] == rs;
  }

  /** Reading an SDK x that follows Last(p) extends the open run and holds x back. */
  lemma OpenTextExtend(p: seq<int>, x: int)
    requires p != [] && x == Last(p) + 1
    ensures OpenText(p + [x]) == OpenText(p)
    ensures Pending(p + [x]) == Some(x)
  {
    var q := p + [x];
    assert q[..|q| - 1] == p;
    var rs := Runs(p);
    var rs' := rs[..|rs| - 1] + [Last(rs) + [x]];
    assert Runs(q) == rs';
    assert rs'[..|rs'| - 1] == rs[..|rs| - 1];
  }

  lemma PrefixGrows(s: seq<int>, i: nat)
    requires i < |s|
    ensures s[..i + 1] == s[..i] + [s[i]]
  {
  }

  /**
   * The loop of recount over one problem's SDKs, with previousSdk and lastSdk
   * as in the source (an absent Integer is None).
   */
  method AppendSdkRanges(sdks: seq<int>) returns (text: string)
    ensures text == SdkRanges(sdks)
  {
    text := "";
    var previousSdk: Option<int> := None;
    var lastSdk: Option<int> := None;
    for i := 0 to |sdks|
      invariant i == 0 ==> text == "" && previousSdk == None && lastSdk == None
      invariant i > 0 ==>
        && previousSdk == Some(sdks[i - 1])
        && text == OpenText(sdks[..i])
        && lastSdk == Pending(sdks[..i])
    {
      var sdk := sdks[i];
      PrefixGrows(sdks, i);
      if previousSdk == None {
        text := text + IntToString(sdk);
      } else {
        assert Last(sdks[..i]) == previousSdk.value;
        if previousSdk.value != sdk - 1 {
          OpenTextGap(sdks[..i], sdk);
          text := text + "-" + IntToString(previousSdk.value) + "/" + IntToString(sdk);
          lastSdk := None;
        } else {
          OpenTextExtend(sdks[..i], sdk);
          lastSdk := Some(sdk);
        }
      }
      previousSdk := Some(sdk);
    }
    assert sdks[..|sdks|] == sdks;
    if lastSdk != None {
      text := text + "-" + IntToString(lastSdk.value);
    }
  }

  /** A single SDK prints as just its number. */
  lemma SdkRangesSingle(x: int)
    ensures SdkRanges([x]) == IntToString(x)
  {
  }

  /** A run of consecutive SDKs is one run. */
  lemma {:induction false} RunsOfConsecutive(s: seq<int>)
    requires s != []
    requires forall k :: 0 < k < |s| ==> s[k] == s[k - 1] + 1
    ensures Runs(s) == [s]
    decreases |s|
  {
    if |s| > 1 {
      var init := s[..|s| - 1];
      RunsOfConsecutive(init);
      assert init + [Last(s)] == s;
    }
  }

  /** A fully consecutive set of two or more SDKs prints as "first-last". */
  lemma SdkRangesConsecutive(s: seq<int>)
    requires |s| >= 2
    requires forall k :: 0 < k < |s| ==> s[k] == s[k - 1] + 1
    ensures SdkRanges(s) == IntToString(s[0]) + "-" + IntToString(Last(s))
  {
    RunsOfConsecutive(s);
    var rs := Runs(s);
    assert rs[..|rs| - 1] == [] && Last(rs) == s;
    assert OpenText(s) == IntToString(s[0]);
  }

  lemma DecimalExamples()
    ensures IntToString(16) == "16" && IntToString(17) == "17"
    ensures IntToString(18) == "18" && IntToString(21) == "21"
  {
    assert NatToString(1) == "1" && NatToString(2) == "2";
  }

  /** Two SDKs with a gap between them: the first, a singleton run, prints as "a-a". */
  lemma {:induction false} SdkRangesSingletonBeforeGap(a: int, b: int)
    requires b != a + 1
    ensures SdkRanges([a, b]) == IntToString(a) + "-" + IntToString(a) + "/" + IntToString(b)
  {
    var p := [a];
    assert [a, b] == p + [b];
    OpenTextSingle(p);
    OpenTextGap(p, b);
    SdkRangesOfPending([a, b]);
  }

  /** Three consecutive SDKs and then a gap print as "a-(a+2)/b". */
  lemma {:induction false} SdkRangesRunThenGap(a: int, b: int)
    requires b != a + 3
    ensures SdkRanges([a, a + 1, a + 2, b]) == IntToString(a) + "-" + IntToString(a + 2) + "/" + IntToString(b)
  {
    var p1 := [a];
    var p2 := p1 + [a + 1];
    var p3 := p2 + [a + 2];
    assert [a, a + 1, a + 2, b] == p3 + [b];
    OpenTextSingle(p1);
    OpenTextExtend(p1, a + 1);
    OpenTextExtend(p2, a + 2);
    OpenTextGap(p3, b);
    SdkRangesOfPending([a, a + 1, a + 2, b]);
  }

  /** {16, 17, 18, 21} prints as "16-18/21". */
  lemma SdkRangesExampleRun()
    ensures SdkRanges([16, 17, 18, 21]) == "16-18/21"
  {
    DecimalExamples();
    SdkRangesRunThenGap(16, 21);
    assert "16" + "-" + "18" + "/" + "21" == "16-18/21";
  }

  /** {16, 18} prints as "16-16/18". */
  lemma SdkRangesExampleSingleton()
    ensures SdkRanges([16, 18]) == "16-16/18"
  {
    DecimalExamples();
    SdkRangesSingletonBeforeGap(16, 18);
    assert "16" + "-" + "16" + "/" + "18" == "16-16/18";
  }
}
