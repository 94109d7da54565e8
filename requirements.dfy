/**
 * `cicd/verify/requirements.py`: every requirement line of
 * `.devcontainer/requirements.txt` must pin its version with `==`.
 */
module RequirementsVerify {
  import opened Wrappers
  import opened Text

  const REQ_MISSING := "Error: requirements.txt missing."
  const ALL_PINNED := "All requirements are pinned."

  /** A stripped requirement line is pinned when `==` occurs anywhere in it. */
  predicate Pinned(t: string) {
    Contains(t, "==")
  }

  /** A line that the check rejects: neither blank, nor a comment, nor pinned. */
  predicate Rejected(ln: string) {
    !BlankOrComment(Strip(ln)) && !Pinned(Strip(ln))
  }

  /** The stripped rejected lines, in file order. */
  function Unpinned(lines: seq<string>): (r: seq<string>)
    ensures |r| <= |lines|
    ensures forall i :: 0 <= i < |r| ==> !BlankOrComment(r[i])
  {
    if lines == [] then []
    else
      var last := lines[|lines| - 1];
      Unpinned(lines[..|lines| - 1]) + (if Rejected(last) then [Strip(last)] else [])
  }

  /** The message printed for one unpinned line: `print("Error: Unpinned req:", ln)`. */
  function UnpinnedMessage(t: string): string {
    "Error: Unpinned req: " + t
  }

  /** The scanning loop of `main`: it reports every unpinned line and never stops early. */
  method CheckPinned(lines: seq<string>) returns (allPinned: bool, report: seq<string>)
    ensures allPinned <==> forall i :: 0 <= i < |lines| ==> !Rejected(lines[i])
    ensures allPinned <==> Unpinned(lines) == []
    ensures |report| == |Unpinned(lines)|
    ensures forall i :: 0 <= i < |report| ==> report[i] == UnpinnedMessage(Unpinned(lines)[i])
  {
    allPinned := true;
    report := [];
    for n := 0 to |lines|
      invariant allPinned <==> Unpinned(lines[..n]) == []
      invariant report == Messages(Unpinned(lines[..n]))
    {
      var ln := Strip(lines[n]);
      UnpinnedSnoc(lines, n);
      if BlankOrComment(ln) {
        continue;
      }
      if !Pinned(ln) {
        MessagesSnoc(Unpinned(lines[..n]), ln);
        report := report + [UnpinnedMessage(ln)];
        allPinned := false;
      }
    }
    assert lines[..|lines|] == lines;
    UnpinnedNone(lines);
    MessagesAt(Unpinned(lines));
  }

  /** Scanning one more line extends the rejected lines by at most that line. */
  lemma UnpinnedSnoc(lines: seq<string>, n: nat)
    requires n < |lines|
    ensures Rejected(lines[n]) ==> Unpinned(lines[..n + 1]) == Unpinned(lines[..n]) + [Strip(lines[n])]
    ensures !Rejected(lines[n]) ==> Unpinned(lines[..n + 1]) == Unpinned(lines[..n])
  {
    assert lines[..n + 1][..n] == lines[..n];
    assert Unpinned(lines[..n]) + [] == Unpinned(lines[..n]);
  }

  /** The printed messages for a sequence of stripped lines, one each, in order. */
  function Messages(ts: seq<string>): (r: seq<string>)
    ensures |r| == |ts|
  {
    if ts == [] then [] else Messages(ts[..|ts| - 1]) + [UnpinnedMessage(ts[|ts| - 1])]
  }

  /** The `i`-th message is the one for the `i`-th line. */
  lemma {:induction false} MessagesAt(ts: seq<string>)
    ensures forall i :: 0 <= i < |ts| ==> Messages(ts)[i] == UnpinnedMessage(ts[i])
  {
    if ts != [] {
      var init := ts[..|ts| - 1];
      MessagesAt(init);
      assert forall i :: 0 <= i < |init| ==> init[i] == ts[i];
    }
  }

  /** Reporting one more line appends its message. */
  lemma MessagesSnoc(ts: seq<string>, t: string)
    ensures Messages(ts + [t]) == Messages(ts) + [UnpinnedMessage(t)]
  {
    assert (ts + [t])[..|ts|] == ts;
  }

  /** Nothing is reported exactly when no line is rejected. */
  lemma {:induction false} UnpinnedNone(lines: seq<string>)
    ensures Unpinned(lines) == [] <==> forall i :: 0 <= i < |lines| ==> !Rejected(lines[i])
  {
    if lines != [] {
      var init := lines[..|lines| - 1];
      UnpinnedNone(init);
      assert forall i :: 0 <= i < |init| ==> init[i] == lines[i];
    }
  }

  /** Exactly the rejected lines are reported, each as its stripped text. */
  lemma {:induction false} UnpinnedLines(lines: seq<string>, t: string)
    ensures t in Unpinned(lines) <==> exists i :: 0 <= i < |lines| && Rejected(lines[i]) && Strip(lines[i]) == t
  {
    if lines != [] {
      var init := lines[..|lines| - 1];
      UnpinnedLines(init, t);
      assert forall i :: 0 <= i < |init| ==> init[i] == lines[i];
    }
  }

  /** A file holding only blank lines and comments passes. */
  lemma {:induction false} OnlyCommentsPass(lines: seq<string>)
    requires forall i :: 0 <= i < |lines| ==> BlankOrComment(Strip(lines[i]))
    ensures Unpinned(lines) == []
  {
    if lines != [] {
      OnlyCommentsPass(lines[..|lines| - 1]);
    }
  }

  /**
   * `main`: `reqFile` is the text of `.devcontainer/requirements.txt`,
   * `None` when the file does not exist; the result is the exit status and
   * the printed lines.
   */
  method VerifyRequirements(reqFile: Option<string>) returns (exitCode: int, out: seq<string>)
    ensures reqFile.None? ==> exitCode == 1 && out == [REQ_MISSING]
    ensures reqFile.Some? ==> var lines := ReadLines(reqFile.value);
      && (exitCode == 0 <==> forall i :: 0 <= i < |lines| ==> !Rejected(lines[i]))
      && (exitCode == 0 || exitCode == 1)
      && |out| == |Unpinned(lines)| + (if exitCode == 0 then 1 else 0)
      && (forall i :: 0 <= i < |Unpinned(lines)| ==> out[i] == UnpinnedMessage(Unpinned(lines)[i]))
      && (exitCode == 0 ==> out == [ALL_PINNED])
  {
    if reqFile.None? {
      return 1, [REQ_MISSING];
    }
    var allPinned, report := CheckPinned(ReadLines(reqFile.value));
    if allPinned {
      return 0, report + [ALL_PINNED];
    }
    return 1, report;
  }
}
