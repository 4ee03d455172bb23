/**
  * The manual entry of the barcode scanner dialog (src/components/BarcodeScanner.js): a typed
  * code is trimmed and submitted, and the list of recent scans keeps the five latest distinct
  * codes, newest first.
  *
  * The dialog's state is a `ScannerDialog` object. The asynchronous submit is split in two: its
  * start (up to the call of `onScan`) and its end, which learns whether `onScan` succeeded.
  */
module BarcodeScanner {
  import opened Wrappers
  import opened Text
  import opened Seqs

  const RecentLimit: nat := 5

  function IsNotCode(code: string): string -> bool {
    (s: string) => s != code
  }

  /** `[code, ...prev.filter(s => s !== code)].slice(0, 5)`: the new code first, then the earlier
      scans without it, at most five in all. */
  function RecentScans(code: string, prev: seq<string>): (r: seq<string>)
    ensures 1 <= |r| <= RecentLimit && r[0] == code
    ensures forall i :: 1 <= i < |r| ==> r[i] != code && r[i] in prev
    // only the oldest entries are dropped: the most recent other codes follow, as many as fit
    ensures |r| == (if |Filter(prev, IsNotCode(code))| + 1 < RecentLimit
                    then |Filter(prev, IsNotCode(code))| + 1 else RecentLimit)
    ensures r[1..] == Filter(prev, IsNotCode(code))[..|r| - 1]
  {
    var r := TakeFirst([code] + Filter(prev, IsNotCode(code)), RecentLimit);
    FilterMembers(prev, IsNotCode(code));
    assert forall i :: 1 <= i < |r| ==> r[i] == Filter(prev, IsNotCode(code))[i - 1];
    r
  }

  /** A list without duplicates stays without duplicates. */
  lemma RecentKeepsDistinct(code: string, prev: seq<string>)
    requires Distinct(prev)
    ensures Distinct(RecentScans(code, prev))
  {
    FilterDistinct(prev, IsNotCode(code));
  }

  /** The older entries that are kept appear in their previous order. */
  lemma RecentKeepsOrder(code: string, prev: seq<string>)
    ensures IsSubsequence(RecentScans(code, prev)[1..], prev)
  {
    var kept := Filter(prev, IsNotCode(code));
    var r := RecentScans(code, prev);
    FilterIsSubsequence(prev, IsNotCode(code));
    assert r[1..] == kept[..|r| - 1];
    SubsequencePrefix(kept, prev, |r| - 1);
  }

  /** The list loses an older code only to make room: when fewer than five codes are held, every
      earlier code is still there. */
  lemma RecentKeepsAllWhenRoom(code: string, prev: seq<string>)
    requires |prev| < RecentLimit
    ensures forall s :: s in prev ==> s in RecentScans(code, prev)
  {
    var kept := Filter(prev, IsNotCode(code));
    assert RecentScans(code, prev) == [code] + kept;
    FilterMembers(prev, IsNotCode(code));
    forall s | s in prev
      ensures s in RecentScans(code, prev)
    {
      if s != code {
        var i :| 0 <= i < |prev| && prev[i] == s;
        assert IsNotCode(code)(prev[i]);
      }
    }
  }

  /** Submitting the newest code again leaves the list as it is. */
  lemma RecentRepeat(code: string, prev: seq<string>)
    ensures RecentScans(code, RecentScans(code, prev)) == RecentScans(code, prev)
  {
    var r := RecentScans(code, prev);
    var tail := r[1..];
    assert r == [code] + tail;
    forall i | 0 <= i < |tail|
      ensures IsNotCode(code)(tail[i])
    {
      assert tail[i] == r[i + 1];
    }
    FilterAll(tail, IsNotCode(code));
    assert Filter([code], IsNotCode(code)) == [] by {
      assert [code][1..] == [];
    }
    FilterAppend([code], tail, IsNotCode(code));
    assert Filter(r, IsNotCode(code)) == tail;
    assert TakeFirst([code] + tail, RecentLimit) == r;
  }

  /** The state of the dialog's manual entry. */
  class ScannerDialog {
    var manualCode: string
    var isSubmitting: bool
    var recentScans: seq<string>

    /** The recent list holds at most five codes, none twice. */
    ghost predicate Valid()
      reads this
    {
      |recentScans| <= RecentLimit && Distinct(recentScans)
    }

    constructor()
      ensures manualCode == "" && !isSubmitting && recentScans == []
      ensures Valid()
    {
      manualCode, isSubmitting, recentScans := "", false, [];
    }

    /** Typing into the field, or clicking a recent scan, sets the text. */
    method SetManualCode(text: string)
      modifies this
      ensures manualCode == text && isSubmitting == old(isSubmitting) && recentScans == old(recentScans)
    {
      manualCode := text;
    }

    /** The start of `handleManualSubmit`: blank input is ignored; otherwise the trimmed code is
        submitted, the dialog is busy and the code heads the recent list. */
    method BeginSubmit() returns (submitted: Option<string>)
      requires Valid()
      modifies this
      ensures Valid()
      ensures Trim(old(manualCode)) == "" ==>
        submitted == None && manualCode == old(manualCode) && isSubmitting == old(isSubmitting) &&
        recentScans == old(recentScans)
      ensures Trim(old(manualCode)) != "" ==>
        submitted == Some(Trim(old(manualCode))) && isSubmitting && manualCode == old(manualCode) &&
        recentScans == RecentScans(Trim(old(manualCode)), old(recentScans))
    {
      var code := Trim(manualCode);
      if code == "" {
        return None;
      }
      isSubmitting := true;
      RecentKeepsDistinct(code, recentScans);
      recentScans := RecentScans(code, recentScans);
      submitted := Some(code);
    }

    /** The end of `handleManualSubmit`: the field is cleared only when `onScan` succeeded, and
        the dialog is no longer busy either way; the recent list was already updated. */
    method FinishSubmit(scanSucceeded: bool)
      requires Valid()
      modifies this
      ensures Valid()
      ensures manualCode == (if scanSucceeded then "" else old(manualCode))
      ensures !isSubmitting && recentScans == old(recentScans)
    {
      if scanSucceeded {
        manualCode := "";
      }
      isSubmitting := false;
    }

    /** `handleKeyPress`: Enter starts a submission unless one is in progress; any other key, or
        Enter while busy, changes nothing. */
    method HandleKeyPress(isEnter: bool) returns (submitted: Option<string>)
      requires Valid()
      modifies this
      ensures Valid()
      ensures !isEnter || old(isSubmitting) ==>
        submitted == None && manualCode == old(manualCode) && isSubmitting == old(isSubmitting) &&
        recentScans == old(recentScans)
      ensures isEnter && !old(isSubmitting) && Trim(old(manualCode)) != "" ==>
        submitted == Some(Trim(old(manualCode))) && isSubmitting && manualCode == old(manualCode) &&
        recentScans == RecentScans(Trim(old(manualCode)), old(recentScans))
      ensures isEnter && !old(isSubmitting) && Trim(old(manualCode)) == "" ==>
        submitted == None && manualCode == old(manualCode) && isSubmitting == old(isSubmitting) &&
        recentScans == old(recentScans)
    {
      submitted := None;
      if isEnter && !isSubmitting {
        submitted := BeginSubmit();
      }
    }
  }
}
