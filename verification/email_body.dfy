/**
 * The text of the notification mail, built in `send_email`: for each entry
 * of `repo_updates` with a positive `new_stars`, in insertion order, the repo
 * name, a "New Stars: +N" line, a "Total Stars: T" line and a blank line.
 */
module EmailBody {
  import opened Text
  import opened StarDelta

  const Subject: string := "GitHub star notification"

  /** The three pieces `send_email` appends for one repo: name, gain, total and a blank line. */
  function NameLine(u: Update): string {
    u.repo + "\n"
  }

  function NewStarsLine(u: Update): string {
    "New Stars: +" + IntString(u.newStars) + "\n"
  }

  function TotalLine(u: Update): string {
    "Total Stars: " + IntString(u.currentTotal) + "\n\n"
  }

  /** The lines written for one repo. */
  function Block(u: Update): string {
    NameLine(u) + NewStarsLine(u) + TotalLine(u)
  }

  /** The text `send_email` accumulates over `repo_updates`. */
  function Body(us: seq<Update>): string {
    if us == [] then ""
    else
      var last := us[|us| - 1];
      Body(us[..|us| - 1]) + (if last.newStars > 0 then Block(last) else "")
  }

  /** The entries with a positive `new_stars`, in order. */
  function Positive(us: seq<Update>): (ps: seq<Update>)
    ensures AllPositive(ps)
    ensures forall i :: 0 <= i < |ps| ==> ps[i] in us
    ensures forall i :: 0 <= i < |us| && us[i].newStars > 0 ==> us[i] in ps
  {
    if us == [] then []
    else
      var last := us[|us| - 1];
      assert us == us[..|us| - 1] + [last];
      Positive(us[..|us| - 1]) + (if last.newStars > 0 then [last] else [])
  }

  /** Filtering one more entry appends it when it has new stars. */
  lemma PositiveSnoc(us: seq<Update>, u: Update)
    ensures Positive(us + [u]) == Positive(us) + (if u.newStars > 0 then [u] else [])
  {
    assert (us + [u])[..|us|] == us;
  }

  /** Filtering a concatenation filters each part and keeps them in order. */
  lemma {:induction false} PositiveAppend(a: seq<Update>, b: seq<Update>)
    ensures Positive(a + b) == Positive(a) + Positive(b)
  {
    if b == [] {
      assert a + b == a;
    } else {
      var front := b[..|b| - 1];
      var last := b[|b| - 1];
      var tail := if last.newStars > 0 then [last] else [];
      calc {
        Positive(a + b);
        { assert a + b == (a + front) + [last]; }
        Positive((a + front) + [last]);
        { PositiveSnoc(a + front, last); }
        Positive(a + front) + tail;
        { PositiveAppend(a, front); }
        (Positive(a) + Positive(front)) + tail;
        Positive(a) + (Positive(front) + tail);
        { assert b == front + [last]; PositiveSnoc(front, last); }
        Positive(a) + Positive(b);
      }
    }
  }

  /** One block per entry, in order, with no filtering. */
  function Blocks(us: seq<Update>): string {
    if us == [] then "" else Blocks(us[..|us| - 1]) + Block(us[|us| - 1])
  }

  /** The body is exactly one block per entry that has new stars, in insertion order. */
  lemma {:induction false} BodyIsBlocksOfPositive(us: seq<Update>)
    ensures Body(us) == Blocks(Positive(us))
  {
    if us != [] {
      var front := us[..|us| - 1];
      var last := us[|us| - 1];
      BodyIsBlocksOfPositive(front);
      if last.newStars > 0 {
        var ps := Positive(front) + [last];
        assert ps[..|ps| - 1] == Positive(front);
      } else {
        assert Positive(us) == Positive(front) + [];
        assert Positive(front) + [] == Positive(front);
      }
    }
  }

  /** Entries that all have new stars (as every `repo_updates` built by `main` does) are all listed. */
  lemma {:induction false} PositiveOfAllPositive(us: seq<Update>)
    requires AllPositive(us)
    ensures Positive(us) == us
  {
    if us != [] {
      var front := us[..|us| - 1];
      var last := us[|us| - 1];
      assert us == front + [last];
      assert AllPositive(front) by {
        forall u | u in front ensures u.newStars > 0 {
          assert u in us;
        }
      }
      PositiveOfAllPositive(front);
      assert last in us;
      assert Positive(us) == Positive(front) + [last];
    }
  }

  /** The body is empty exactly when no entry has new stars. */
  lemma {:induction false} BodyEmptyIff(us: seq<Update>)
    ensures Body(us) == "" <==> forall u :: u in us ==> u.newStars <= 0
  {
    if us != [] {
      var front := us[..|us| - 1];
      var last := us[|us| - 1];
      BodyEmptyIff(front);
      assert us == front + [last];
      if last.newStars > 0 {
        assert |Block(last)| > 0;
      }
    }
  }

  lemma {:induction false} BlockLines(u: Update)
    requires NoNewline(u.repo)
    ensures NewlineCount(Block(u)) == 4
  {
    var nl: string := "\n";
    var nl2: string := "\n\n";
    var newLabel: string := "New Stars: +";
    var totalLabel: string := "Total Stars: ";
    assert nl[..0] == [];
    assert nl2[..1] == nl;
    NoNewlineCount(u.repo);
    NoNewlineCount(IntString(u.newStars));
    NoNewlineCount(IntString(u.currentTotal));
    NoNewlineCount(newLabel);
    NoNewlineCount(totalLabel);
    NewlineCountAppend(u.repo, nl);
    NewlineCountAppend(newLabel, IntString(u.newStars));
    NewlineCountAppend(newLabel + IntString(u.newStars), nl);
    NewlineCountAppend(totalLabel, IntString(u.currentTotal));
    NewlineCountAppend(totalLabel + IntString(u.currentTotal), nl2);
    NewlineCountAppend(NameLine(u), NewStarsLine(u));
    NewlineCountAppend(NameLine(u) + NewStarsLine(u), TotalLine(u));
  }

  /** When no repo name holds a line break, the body has four lines per entry with new stars. */
  lemma {:induction false} BodyLineCount(us: seq<Update>)
    requires forall u :: u in us ==> NoNewline(u.repo)
    ensures NewlineCount(Body(us)) == 4 * |Positive(us)|
  {
    if us != [] {
      var front := us[..|us| - 1];
      var last := us[|us| - 1];
      assert forall u :: u in front ==> u in us;
      BodyLineCount(front);
      if last.newStars > 0 {
        assert Body(us) == Body(front) + Block(last);
        assert |Positive(us)| == |Positive(front)| + 1;
        BlockLines(last);
        NewlineCountAppend(Body(front), Block(last));
      } else {
        assert Body(us) == Body(front);
        assert |Positive(us)| == |Positive(front)|;
      }
    }
  }

  /** The loop of `send_email` that accumulates `text`. */
  method ComposeBody(us: seq<Update>) returns (text: string)
    ensures text == Body(us)
  {
    text := "";
    var i := 0;
    while i < |us|
      invariant 0 <= i <= |us|
      invariant text == Body(us[..i])
    {
      var u := us[i];
      assert us[..i + 1][..i] == us[..i] && us[..i + 1][i] == u;
      ghost var before := text;
      if u.newStars > 0 {
        text := text + NameLine(u);
        text := text + NewStarsLine(u);
        text := text + TotalLine(u);
        assert text == before + Block(u);
      } else {
        assert Body(us[..i + 1]) == Body(us[..i]) + "";
      }
      i := i + 1;
    }
    assert us[..i] == us;
  }

  /** The mail for an update of repo "b" from 0 to 2 stars. */
  lemma BodyExample()
    ensures Body([Update("b", 2, 2)]) == "b\nNew Stars: +2\nTotal Stars: 2\n\n"
  {
    var u := Update("b", 2, 2);
    assert [u][..0] == [];
    assert Body([u]) == "" + Block(u);
    assert NatString(2) == "2";
    assert IntString(2) == "2";
    assert NameLine(u) == "b\n";
    assert NewStarsLine(u) == "New Stars: +2\n";
    assert TotalLine(u) == "Total Stars: 2\n\n";
  }
}
