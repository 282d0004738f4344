/**
 * The receipt text: six newline-terminated lines read off the confirmation
 * page, with the "Head: ", "Body: " and "Legs: " labels stripped from the part
 * descriptions by `str.replace`. The Body value is written `{value,}` in the
 * f-string, which makes it a one-element tuple, so the line shows Python's
 * tuple repr `('…',)` rather than the bare text.
 */
module Receipt {
  import PyRepr
  import Wrappers

  /** The text content of the page nodes the receipt is read from. */
  datatype PageText = PageText(
    date: string,     // first `#receipt div`
    address: string,  // first `#receipt p`
    head: string,     // `#parts div` number 0
    body: string,     // `#parts div` number 1
    legs: string      // `#parts div` number 2
  )

  const HeadLabel: string := "Head: "
  const BodyLabel: string := "Body: "
  const LegsLabel: string := "Legs: "

  predicate OccursAt(s: string, pat: string, i: nat) {
    i + |pat| <= |s| && s[i..i + |pat|] == pat
  }

  /**
   * `s.replace(pat, '')`: one left-to-right scan that drops every
   * non-overlapping occurrence of `pat`.
   */
  function RemoveAll(s: string, pat: string): (r: string)
    requires |pat| > 0
    ensures |r| <= |s|
    decreases |s|
  {
    if |s| < |pat| then s
    else if s[..|pat|] == pat then RemoveAll(s[|pat|..], pat)
    else [s[0]] + RemoveAll(s[1..], pat)
  }

  /** `get_receipt_text(page, order_id)`: every line it appends ends with a newline. */
  function ReceiptText(orderId: string, page: PageText): (text: string)
    ensures |text| > 0 && text[|text| - 1] == '\n'
  {
    ("Order ID: " + orderId + "\n")
    + ("Date: " + page.date + "\n")
    + ("Address: " + page.address + "\n")
    + ("Head: " + RemoveAll(page.head, HeadLabel) + "\n")
    + ("Body: " + PyRepr.TupleRepr(RemoveAll(page.body, BodyLabel)) + "\n")
    + ("Legs: " + RemoveAll(page.legs, LegsLabel) + "\n")
  }

  /** Position of the first newline, or |s| when there is none. */
  function NewlineIndex(s: string): (k: nat)
    ensures k <= |s|
    ensures forall i :: 0 <= i < k ==> s[i] != '\n'
    ensures k < |s| ==> s[k] == '\n'
  {
    if s == [] || s[0] == '\n' then 0 else 1 + NewlineIndex(s[1..])
  }

  /** The lines of a text, split at '\n'; a final newline does not open an empty line. */
  function Lines(s: string): seq<string>
    decreases |s|
  {
    if s == [] then []
    else
      var k := NewlineIndex(s);
      if k == |s| then [s] else [s[..k]] + Lines(s[k + 1..])
  }

  // ---------------------------------------------------------------------
  // str.replace removes every occurrence, in a single pass

  lemma OccursShift(s: string, pat: string, i: nat)
    requires |s| >= 1
    ensures OccursAt(s[1..], pat, i) <==> OccursAt(s, pat, i + 1)
  {
    if i + |pat| <= |s[1..]| {
      assert s[1..][i..i + |pat|] == s[i + 1..i + 1 + |pat|];
    }
  }

  /** Text without the pattern passes through unchanged. */
  lemma {:induction false} RemoveAllAbsent(s: string, pat: string)
    requires |pat| > 0
    requires forall i :: 0 <= i < |s| ==> !OccursAt(s, pat, i)
    ensures RemoveAll(s, pat) == s
    decreases |s|
  {
    if |s| >= |pat| {
      assert !OccursAt(s, pat, 0);
      forall i | 0 <= i < |s[1..]| ensures !OccursAt(s[1..], pat, i) {
        OccursShift(s, pat, i);
      }
      RemoveAllAbsent(s[1..], pat);
      assert [s[0]] + s[1..] == s;
    }
  }

  /**
   * An occurrence anywhere (not only at the start) is dropped: the text
   * before the first occurrence is kept and the scan resumes after it.
   */
  lemma {:induction false} RemoveAllDropsFirstOccurrence(a: string, pat: string, b: string)
    requires |pat| > 0
    requires forall i :: 0 <= i < |a| ==> !OccursAt(a + pat + b, pat, i)
    ensures RemoveAll(a + pat + b, pat) == a + RemoveAll(b, pat)
    decreases |a|
  {
    var s := a + pat + b;
    if a == [] {
      assert s == pat + b;
      assert s[..|pat|] == pat && s[|pat|..] == b;
    } else {
      var rest := a[1..] + pat + b;
      assert s == [a[0]] + rest;
      assert !OccursAt(s, pat, 0);
      RemoveAllSkipChar(a[0], rest, pat);
      forall i | 0 <= i < |a[1..]| ensures !OccursAt(rest, pat, i) {
        OccursShift(s, pat, i);
        assert s[1..] == rest;
      }
      RemoveAllDropsFirstOccurrence(a[1..], pat, b);
      assert [a[0]] + (a[1..] + RemoveAll(b, pat)) == a + RemoveAll(b, pat);
    }
  }

  lemma RemoveAllSkipChar(c: char, rest: string, pat: string)
    requires |pat| > 0 && !OccursAt([c] + rest, pat, 0)
    ensures RemoveAll([c] + rest, pat) == [c] + RemoveAll(rest, pat)
  {
    var s := [c] + rest;
    assert s[1..] == rest;
  }

  /**
   * The scan does not look again at what it produced: removing the label can
   * leave a new label ("HeHead: ad: " becomes "Head: ").
   */
  lemma RemoveAllIsSinglePass()
    ensures RemoveAll(HeadLabel[..2] + HeadLabel + HeadLabel[2..], HeadLabel) == HeadLabel
  {
    var a, b := HeadLabel[..2], HeadLabel[2..];
    var s := a + HeadLabel + b;
    assert s[..6][2] != HeadLabel[2];
    assert s[1..7][0] != HeadLabel[0];
    assert !OccursAt(s, HeadLabel, 0) && !OccursAt(s, HeadLabel, 1);
    RemoveAllDropsFirstOccurrence(a, HeadLabel, b);
    RemoveAllAbsent(b, HeadLabel);
    assert a + b == HeadLabel;
  }

  // ---------------------------------------------------------------------
  // the six lines of the receipt

  lemma LinesOfLine(a: string, rest: string)
    requires '\n' !in a
    ensures Lines(a + "\n" + rest) == [a] + Lines(rest)
  {
    var s := a + "\n" + rest;
    var k := NewlineIndex(s);
    assert s[|a|] == '\n';
    forall i | 0 <= i < |a| ensures s[i] != '\n' {
      assert s[i] == a[i] && a[i] in a;
    }
    assert k == |a|;
    assert s[..k] == a && s[k + 1..] == rest;
  }

  lemma NoNewlineInTupleRepr(v: string)
    ensures '\n' !in PyRepr.TupleRepr(v)
  {
    var q := PyRepr.QuoteFor(v);
    var e := PyRepr.Escape(v, q);
    assert forall i :: 0 <= i < |e| ==> e[i] != '\n';
    assert PyRepr.TupleRepr(v) == "(" + [q] + e + [q] + ",)";
  }

  /** Removing a label keeps only characters of the text: it cannot make a newline. */
  lemma {:induction false} NoNewlineRemoved(s: string, pat: string)
    requires |pat| > 0 && '\n' !in s
    ensures '\n' !in RemoveAll(s, pat)
    decreases |s|
  {
    if |s| >= |pat| {
      if s[..|pat|] == pat {
        assert forall c :: c in s[|pat|..] ==> c in s;
        NoNewlineRemoved(s[|pat|..], pat);
      } else {
        assert forall c :: c in s[1..] ==> c in s;
        NoNewlineRemoved(s[1..], pat);
      }
    }
  }

  /** Lines each followed by a newline, as `+=` builds them. */
  function Terminated(ls: seq<string>): string {
    if ls == [] then [] else ls[0] + "\n" + Terminated(ls[1..])
  }

  lemma {:induction false} LinesOfTerminated(ls: seq<string>)
    requires forall i :: 0 <= i < |ls| ==> '\n' !in ls[i]
    ensures Lines(Terminated(ls)) == ls
  {
    if ls != [] {
      LinesOfLine(ls[0], Terminated(ls[1..]));
      LinesOfTerminated(ls[1..]);
    }
  }

  /** The six lines, without their newlines. */
  function ReceiptLines(orderId: string, page: PageText): seq<string> {
    [ "Order ID: " + orderId,
      "Date: " + page.date,
      "Address: " + page.address,
      "Head: " + RemoveAll(page.head, HeadLabel),
      "Body: " + PyRepr.TupleRepr(RemoveAll(page.body, BodyLabel)),
      "Legs: " + RemoveAll(page.legs, LegsLabel) ]
  }

  lemma TerminatedSix(a: string, b: string, c: string, d: string, e: string, f: string)
    ensures Terminated([a, b, c, d, e, f])
            == (a + "\n") + (b + "\n") + (c + "\n") + (d + "\n") + (e + "\n") + (f + "\n")
  {
    var ls := [a, b, c, d, e, f];
    assert ls[1..] == [b, c, d, e, f];
    assert ls[1..][1..] == [c, d, e, f];
    assert ls[1..][1..][1..] == [d, e, f];
    assert ls[1..][1..][1..][1..] == [e, f];
    assert ls[1..][1..][1..][1..][1..] == [f];
    assert ls[1..][1..][1..][1..][1..][1..] == [];
    var t5 := f + "\n";
    var t4 := e + "\n" + t5;
    var t3 := d + "\n" + t4;
    var t2 := c + "\n" + t3;
    var t1 := b + "\n" + t2;
    assert Terminated([f]) == t5;
    assert Terminated([e, f]) == t4;
    assert Terminated([d, e, f]) == t3;
    assert Terminated([c, d, e, f]) == t2;
    assert Terminated([b, c, d, e, f]) == t1;
    assert Terminated(ls) == a + "\n" + t1;
  }

  lemma ReceiptIsTerminatedLines(orderId: string, page: PageText)
    ensures ReceiptText(orderId, page) == Terminated(ReceiptLines(orderId, page))
  {
    var ls := ReceiptLines(orderId, page);
    TerminatedSix(ls[0], ls[1], ls[2], ls[3], ls[4], ls[5]);
    assert ls == [ls[0], ls[1], ls[2], ls[3], ls[4], ls[5]];
  }

  /** The Body line shows the one-element tuple, and its repr reads back to the value. */
  lemma BodyLineReadsBack(v: string)
    ensures var line := "Body: " + PyRepr.TupleRepr(v);
      && |line| >= 9
      && line[..7] == "Body: (" && line[|line| - 2..] == ",)"
      && PyRepr.ParseRepr(line[7..|line| - 2]) == Wrappers.Some(v)
  {
    var line := "Body: " + PyRepr.TupleRepr(v);
    assert line == "Body: (" + PyRepr.Repr(v) + ",)";
    assert line[7..|line| - 2] == PyRepr.Repr(v);
    PyRepr.ParseReprRepr(v);
  }

  lemma ReceiptSplitsIntoLines(orderId: string, page: PageText)
    requires '\n' !in orderId && '\n' !in page.date && '\n' !in page.address
    requires '\n' !in page.head && '\n' !in page.legs
    ensures Lines(ReceiptText(orderId, page)) == ReceiptLines(orderId, page)
  {
    var ls := ReceiptLines(orderId, page);
    NoNewlineRemoved(page.head, HeadLabel);
    NoNewlineRemoved(page.legs, LegsLabel);
    NoNewlineInTupleRepr(RemoveAll(page.body, BodyLabel));
    assert forall i :: 0 <= i < |ls| ==> '\n' !in ls[i];
    ReceiptIsTerminatedLines(orderId, page);
    LinesOfTerminated(ls);
  }

  /**
   * When no page text holds a newline, the receipt is exactly six
   * newline-terminated lines, in the order Order ID, Date, Address, Head,
   * Body, Legs; the Body line is a one-element tuple whose repr reads back
   * to the body text with its label removed.
   */
  lemma ReceiptHasSixLines(orderId: string, page: PageText)
    requires '\n' !in orderId && '\n' !in page.date && '\n' !in page.address
    requires '\n' !in page.head && '\n' !in page.legs
    ensures var text := ReceiptText(orderId, page);
      |text| > 0 && text[|text| - 1] == '\n'
    ensures var lines := Lines(ReceiptText(orderId, page));
      && |lines| == 6
      && lines[0] == "Order ID: " + orderId
      && lines[1] == "Date: " + page.date
      && lines[2] == "Address: " + page.address
      && lines[3] == "Head: " + RemoveAll(page.head, HeadLabel)
      && lines[5] == "Legs: " + RemoveAll(page.legs, LegsLabel)
      && |lines[4]| >= 9
      && lines[4][..7] == "Body: (" && lines[4][|lines[4]| - 2..] == ",)"
      && PyRepr.ParseRepr(lines[4][7..|lines[4]| - 2]) == Wrappers.Some(RemoveAll(page.body, BodyLabel))
  {
    ReceiptSplitsIntoLines(orderId, page);
    var v := RemoveAll(page.body, BodyLabel);
    var ls := ReceiptLines(orderId, page);
    assert ls[4] == "Body: " + PyRepr.TupleRepr(v);
    BodyLineReadsBack(v);
  }
}
