/** The simulation-directory part of the calibration widgets (OWTest_form.py and,
    without the PSD entries, OWTest.py): the list of recent directories kept in
    step with the directory combo box, the info label that lists the log files,
    the empty-directory warning and the PSD entries added to the form.
    Whether the directory exists and what `os.listdir` returns (or raises) are
    parameters. */
module SimulationDirectory {
  import opened Base
  import opened Text
  import opened Json

  /** At most this many recent directories are kept. */
  const MaxRecent := 10

  predicate Distinct(s: seq<string>) {
    forall i, j :: 0 <= i < j < |s| ==> s[i] != s[j]
  }

  // ---------------------------------------------------------------------
  // Recent directories (OWTest_form.py:145-154)

  /** The recent list after choosing `d`: unchanged when `d` is already in it,
      otherwise `d` in front and the oldest entries beyond ten dropped. */
  function RecentAfter(recent: seq<string>, d: string): seq<string> {
    if d in recent then recent
    else
      var full := [d] + recent;
      if |full| > MaxRecent then full[..MaxRecent] else full
  }

  /** A new directory goes in front, the others keep their order, and the list
      is as long as it can be up to ten entries. */
  lemma RecentAfterNew(recent: seq<string>, d: string)
    requires d !in recent
    ensures var r := RecentAfter(recent, d);
      && r[0] == d
      && |r| == (if |recent| + 1 > MaxRecent then MaxRecent else |recent| + 1)
      && r[1..] == recent[..|r| - 1]
  {
    var r := RecentAfter(recent, d);
    assert r[1..] == recent[..|r| - 1];
  }

  /** A directory already in the list changes nothing; choosing it again after
      any choice changes nothing either. */
  lemma RecentAfterIdempotent(recent: seq<string>, d: string)
    ensures d in RecentAfter(recent, d)
    ensures RecentAfter(RecentAfter(recent, d), d) == RecentAfter(recent, d)
  {
    if d !in recent {
      RecentAfterNew(recent, d);
    }
  }

  /** A list of at most ten entries stays within ten. */
  lemma RecentAfterBounded(recent: seq<string>, d: string)
    requires |recent| <= MaxRecent
    ensures |RecentAfter(recent, d)| <= MaxRecent
  {
  }

  /** A list without repeats keeps none: the new entry was not in it. */
  lemma RecentAfterDistinct(recent: seq<string>, d: string)
    requires Distinct(recent)
    ensures Distinct(RecentAfter(recent, d))
  {
    if d !in recent {
      var full := [d] + recent;
      assert Distinct(full) by {
        forall i, j | 0 <= i < j < |full|
          ensures full[i] != full[j]
        {
          if i == 0 {
            assert full[j] == recent[j - 1];
          } else {
            assert full[i] == recent[i - 1] && full[j] == recent[j - 1];
          }
        }
      }
    }
  }

  /** Only the oldest entries are dropped: entries past the ninth go when a new
      directory comes in front of a full list. */
  lemma OldestDropped(recent: seq<string>, d: string, x: string)
    requires d !in recent && x in recent
    ensures x in RecentAfter(recent, d) <==> exists k :: 0 <= k < |recent| && k < MaxRecent - 1 && recent[k] == x
  {
    var r := RecentAfter(recent, d);
    RecentAfterNew(recent, d);
    if x in r {
      var k :| 0 <= k < |r| && r[k] == x;
      if k == 0 {
        // x == d, which is not in recent
        assert false;
      }
      assert recent[k - 1] == r[1..][k - 1];
    }
    if exists k :: 0 <= k < |recent| && k < MaxRecent - 1 && recent[k] == x {
      var k :| 0 <= k < |recent| && k < MaxRecent - 1 && recent[k] == x;
      assert r[k + 1] == r[1..][k];
    }
  }

  /** `QComboBox.findText`: the index of the first item with the text, or -1. */
  function FindText(items: seq<string>, t: string): (r: int)
    ensures -1 <= r < |items|
    ensures r == -1 <==> t !in items
    ensures r >= 0 ==> items[r] == t && t !in items[..r]
  {
    if items == [] then -1
    else if items[0] == t then 0
    else
      var k := FindText(items[1..], t);
      assert items[1..] == items[1..][..|items[1..]|];
      if k == -1 then -1
      else
        assert items[..k + 1] == [items[0]] + items[1..][..k];
        k + 1
  }

  /** `findText` followed by `removeItem` when something was found. */
  function RemoveFirst(items: seq<string>, t: string): seq<string> {
    var i := FindText(items, t);
    if i >= 0 then items[..i] + items[i + 1..] else items
  }

  /** Exactly one occurrence of the text goes, when there is one. */
  lemma RemoveFirstCounts(items: seq<string>, t: string)
    ensures t in items ==> multiset(RemoveFirst(items, t)) == multiset(items) - multiset{t}
    ensures t !in items ==> RemoveFirst(items, t) == items
  {
    var i := FindText(items, t);
    if i >= 0 {
      assert items == items[..i] + [t] + items[i + 1..];
      calc {
        multiset(items);
        multiset(items[..i] + [t] + items[i + 1..]);
        multiset(items[..i]) + multiset{t} + multiset(items[i + 1..]);
        multiset(items[..i] + items[i + 1..]) + multiset{t};
      }
    }
  }

  /** The combo items after popping `full[|full| - 1]`, …, `full[n]` off the
      recent list, in that order, each removed from the combo by its text. */
  function Trimmed(combo: seq<string>, full: seq<string>, n: nat): seq<string>
    requires n <= |full|
    decreases |full| - n
  {
    if n == |full| then combo else RemoveFirst(Trimmed(combo, full, n + 1), full[n])
  }

  /** The combo items after choosing `d`. */
  function ComboAfter(recent: seq<string>, combo: seq<string>, d: string): seq<string> {
    if d in recent then combo
    else
      var full := [d] + recent;
      Trimmed([d] + combo, full, if |full| > MaxRecent then MaxRecent else |full|)
  }

  lemma {:induction false} TrimmedMirror(full: seq<string>, n: nat)
    requires n <= |full| && Distinct(full)
    decreases |full| - n
    ensures Trimmed(full, full, n) == full[..n]
  {
    if n < |full| {
      TrimmedMirror(full, n + 1);
      var items := full[..n + 1];
      var i := FindText(items, full[n]);
      assert i == n;
      assert items[..n] + items[n + 1..] == full[..n];
      assert Trimmed(full, full, n) == RemoveFirst(items, full[n]);
    }
  }

  /** A combo box that shows exactly the recent list, without repeats, still
      does after a choice. */
  lemma ComboMirrorsRecent(recent: seq<string>, d: string)
    requires Distinct(recent)
    ensures ComboAfter(recent, recent, d) == RecentAfter(recent, d)
  {
    if d !in recent {
      var full := [d] + recent;
      RecentAfterDistinct(recent, d);
      assert Distinct(full) by {
        forall i, j | 0 <= i < j < |full|
          ensures full[i] != full[j]
        {
          if i == 0 {
            assert full[j] == recent[j - 1];
          } else {
            assert full[i] == recent[i - 1] && full[j] == recent[j - 1];
          }
        }
      }
      var n := if |full| > MaxRecent then MaxRecent else |full|;
      TrimmedMirror(full, n);
      assert full[..|full|] == full;
    }
  }

  // ---------------------------------------------------------------------
  // The info label (OWTest_form.py:155-164)

  predicate IsLogFile(name: string) {
    StartsWith(name, "log") && !EndsWith(name, ".bak")
  }

  /** The comprehension over the listing: names starting with `log` and not
      ending in `.bak`, in listing order. */
  function LogFiles(names: seq<string>): (r: seq<string>)
    ensures |r| <= |names|
    ensures forall x :: x in r <==> x in names && IsLogFile(x)
  {
    if names == [] then []
    else
      var rest := LogFiles(names[1..]);
      assert forall x :: x in names <==> x == names[0] || x in names[1..];
      (if IsLogFile(names[0]) then [names[0]] else []) + rest
  }

  /** The filter keeps listing order: filtering a concatenation concatenates
      the filtered halves. */
  lemma {:induction false} LogFilesAppend(a: seq<string>, b: seq<string>)
    ensures LogFiles(a + b) == LogFiles(a) + LogFiles(b)
  {
    if a == [] {
      assert a + b == b;
    } else {
      assert (a + b)[0] == a[0] && (a + b)[1..] == a[1..] + b;
      LogFilesAppend(a[1..], b);
      var head := if IsLogFile(a[0]) then [a[0]] else [];
      assert LogFiles(a + b) == head + LogFiles(a[1..] + b);
      assert LogFiles(a) == head + LogFiles(a[1..]);
    }
  }

  /** Filtering the log files again keeps them all. */
  lemma {:induction false} LogFilesIdempotent(names: seq<string>)
    ensures LogFiles(LogFiles(names)) == LogFiles(names)
  {
    if names != [] {
      LogFilesIdempotent(names[1..]);
      var head := if IsLogFile(names[0]) then [names[0]] else [];
      LogFilesAppend(head, LogFiles(names[1..]));
      if IsLogFile(names[0]) {
        assert LogFiles(head) == head by {
          assert head[1..] == [];
        }
      }
    }
  }

  const EmptyDirectoryLabel := "Directory is empty! Provide another path."
  const NoLogLabel := "No valid log file detected!"
  const LogPrefix := "Log file(s) detected: "

  /** The label for a directory that exists and lists `names`. */
  function InfoLabelOf(names: seq<string>): (r: string)
    ensures r == EmptyDirectoryLabel <==> names == []
    ensures r == NoLogLabel <==> (names != [] && forall x :: x in names ==> !IsLogFile(x))
    ensures StartsWith(r, LogPrefix) <==> exists x :: x in names && IsLogFile(x)
  {
    if names == [] then
      assert EmptyDirectoryLabel[0] == 'D' && NoLogLabel[0] == 'N' && LogPrefix[0] == 'L';
      EmptyDirectoryLabel
    else
      var logs := LogFiles(names);
      if logs != [] then
        var r := LogPrefix + Join(", ", logs);
        assert r[0] == 'L' && r[..|LogPrefix|] == LogPrefix;
        assert logs[0] in logs;
        assert EmptyDirectoryLabel[0] == 'D' && NoLogLabel[0] == 'N';
        r
      else
        assert NoLogLabel[0] == 'N' && EmptyDirectoryLabel[0] == 'D' && LogPrefix[0] == 'L';
        NoLogLabel
  }

  /** The label after `update_info_label`: a missing directory is reported as
      empty without listing it; a listing that raises leaves the label alone. */
  function InfoLabelAfter(current: string, isPresent: bool, listing: Result<seq<string>>): string {
    if !isPresent then EmptyDirectoryLabel
    else if listing.Failure? then current
    else InfoLabelOf(listing.value)
  }

  // ---------------------------------------------------------------------
  // The empty-directory warning (OWTest_form.py:141, OWTest.py:73)

  /** Python `v is False`: only the `False` object itself is `False`. */
  predicate IsFalseObject(v: Json) { v == JBool(false) }

  /** As written: `os.listdir(d) is False` compares a list with the `False`
      object by identity. */
  predicate WarnsEmptyAsWritten(listing: seq<string>) {
    IsFalseObject(JArr(seq(|listing|, k requires 0 <= k < |listing| => JStr(listing[k]))))
  }

  /** The evidently intended test, `not os.listdir(d)`. */
  predicate WarnsEmpty(listing: seq<string>) { listing == [] }

  /** As written the warning never shows, not even for an empty directory. */
  lemma EmptyDirectoryNotWarned(listing: seq<string>)
    ensures !WarnsEmptyAsWritten(listing)
    ensures WarnsEmptyAsWritten([]) != WarnsEmpty([])
  {
  }

  /** The intended warning agrees with the info label: it shows exactly when
      the label says the directory is empty. */
  lemma WarningMatchesLabel(listing: seq<string>)
    ensures WarnsEmpty(listing) <==> InfoLabelOf(listing) == EmptyDirectoryLabel
  {
  }

  // ---------------------------------------------------------------------
  // PSD entries (OWTest_form.py:120-133)

  /** The values of one PSD row: diameter, fraction type and fraction value. */
  datatype PsdEntry = PsdEntry(diameter: real, fractionType: string, fractionValue: real)

  const FractionTypes := ["mass", "volume"]

  /** The ranges `add_psd_entry` sets on the spin boxes and the combo's items. */
  predicate PsdEntryInRange(e: PsdEntry) {
    0.0 <= e.diameter <= 1000.0 && e.fractionType in FractionTypes && 0.0 <= e.fractionValue <= 1.0
  }

  /** A fresh row: spin boxes at zero, the first fraction type selected. */
  const NewPsdEntry := PsdEntry(0.0, FractionTypes[0], 0.0)

  // ---------------------------------------------------------------------
  // The widget

  class SimulationWidget {
    var directory: string
    var infoLabel: string
    var recentDirectories: seq<string>
    var comboItems: seq<string>
    var psdEntries: seq<PsdEntry>

    /** The recent list is bounded, has no repeats, the combo shows exactly
        it, and every PSD row is within its ranges. */
    predicate Valid()
      reads this
    {
      && |recentDirectories| <= MaxRecent
      && Distinct(recentDirectories)
      && comboItems == recentDirectories
      && forall k :: 0 <= k < |psdEntries| ==> PsdEntryInRange(psdEntries[k])
    }

    /** The widget over its saved settings: the combo is filled from the
        recent list and the label is empty. */
    constructor (savedDirectory: string, savedRecent: seq<string>)
      ensures directory == savedDirectory && infoLabel == ""
      ensures recentDirectories == savedRecent && comboItems == savedRecent && psdEntries == []
      ensures |savedRecent| <= MaxRecent && Distinct(savedRecent) ==> Valid()
    {
      directory, infoLabel := savedDirectory, "";
      recentDirectories, comboItems, psdEntries := savedRecent, savedRecent, [];
    }

    /** `add_psd_entry`: one fresh row at the end. */
    method AddPsdEntry()
      modifies this`psdEntries
      ensures psdEntries == old(psdEntries) + [NewPsdEntry]
      ensures old(Valid()) ==> Valid()
    {
      psdEntries := psdEntries + [NewPsdEntry];
    }

    /** `update_info_label`. Listing a present directory may raise. */
    method UpdateInfoLabel(isPresent: bool, listing: Result<seq<string>>) returns (raised: Option<PyError>)
      modifies this`infoLabel
      ensures raised == (if isPresent && listing.Failure? then Some(listing.error) else None)
      ensures infoLabel == InfoLabelAfter(old(infoLabel), isPresent, listing)
    {
      raised := None;
      if !isPresent {
        infoLabel := EmptyDirectoryLabel;
      } else if listing.Failure? {
        raised := Some(listing.error);
      } else if listing.value == [] {
        infoLabel := EmptyDirectoryLabel;
      } else {
        var logs := LogFiles(listing.value);
        if logs != [] {
          infoLabel := LogPrefix + Join(", ", logs);
        } else {
          infoLabel := NoLogLabel;
        }
      }
    }

    /** The recent-directory update of `on_directory_change`: insert in front
        of the list and the combo, then pop the oldest while more than ten
        remain, removing each popped text from the combo. */
    method RememberDirectory(d: string)
      modifies this`recentDirectories, this`comboItems
      ensures recentDirectories == RecentAfter(old(recentDirectories), d)
      ensures comboItems == ComboAfter(old(recentDirectories), old(comboItems), d)
    {
      if d !in recentDirectories {
        ghost var full := [d] + recentDirectories;
        ghost var start := [d] + comboItems;
        var recent, combo := [d] + recentDirectories, [d] + comboItems;
        while |recent| > MaxRecent
          invariant |recent| <= |full|
          invariant recent == full[..|recent|]
          invariant |recent| >= MaxRecent || recent == full
          invariant combo == Trimmed(start, full, |recent|)
          decreases |recent|
        {
          var lastDir := recent[|recent| - 1];
          assert lastDir == full[|recent| - 1];
          recent := recent[..|recent| - 1];
          var idx := FindText(combo, lastDir);
          if idx >= 0 {
            combo := combo[..idx] + combo[idx + 1..];
          }
          assert combo == RemoveFirst(Trimmed(start, full, |recent| + 1), full[|recent|]);
        }
        recentDirectories, comboItems := recent, combo;
      }
    }

    /** `on_directory_change`: set the directory, update the label, list the
        directory (which raises for a missing one) and warn when it is empty,
        then remember it. The result tells whether the warning was shown.
        `isPresent` and `listing` describe the same directory. */
    method OnDirectoryChange(newDirectory: string, isPresent: bool, listing: Result<seq<string>>) returns (r: Result<bool>)
      requires !isPresent ==> listing.Failure?  // a missing directory cannot be listed
      modifies this`directory, this`infoLabel, this`recentDirectories, this`comboItems
      ensures directory == newDirectory
      ensures infoLabel == InfoLabelAfter(old(infoLabel), isPresent, listing)
      ensures r.Failure? <==> listing.Failure?
      ensures r.Failure? ==> (r.error == listing.error
        && recentDirectories == old(recentDirectories) && comboItems == old(comboItems))
      ensures r.Success? ==> (r.value == WarnsEmptyAsWritten(listing.value) && !r.value
        && recentDirectories == RecentAfter(old(recentDirectories), newDirectory)
        && comboItems == ComboAfter(old(recentDirectories), old(comboItems), newDirectory))
      ensures old(Valid()) ==> Valid()
    {
      directory := newDirectory;
      var raised := UpdateInfoLabel(isPresent, listing);
      if raised.Some? {
        return Failure(raised.value);
      }
      if listing.Failure? {
        return Failure(listing.error);
      }
      var warned := WarnsEmptyAsWritten(listing.value);
      ghost var before := recentDirectories;
      RememberDirectory(newDirectory);
      if old(Valid()) {
        RecentAfterBounded(before, newDirectory);
        RecentAfterDistinct(before, newDirectory);
        ComboMirrorsRecent(before, newDirectory);
      }
      r := Success(warned);
    }

    /** `browse`: a directory chosen in the dialog goes through
        `on_directory_change`; an empty choice (the dialog cancelled) keeps the
        directory. Either way the label is then updated once more for the
        current directory, whose presence and listing are the parameters (they
        describe the same directory). */
    method Browse(chosen: string, isPresent: bool, listing: Result<seq<string>>) returns (r: Result<bool>)
      requires !isPresent ==> listing.Failure?  // a missing directory cannot be listed
      modifies this`directory, this`infoLabel, this`recentDirectories, this`comboItems
      ensures directory == (if chosen == "" then old(directory) else chosen)
      ensures infoLabel == InfoLabelAfter(old(infoLabel), isPresent, listing)
      ensures chosen == "" ==> (r == (if isPresent && listing.Failure? then Failure(listing.error) else Success(false))
        && recentDirectories == old(recentDirectories) && comboItems == old(comboItems))
      ensures chosen != "" ==> (r == (if listing.Failure? then Failure(listing.error) else Success(false))
        && (r.Success? ==> r.value == WarnsEmptyAsWritten(listing.value))
        && recentDirectories == (if listing.Failure? then old(recentDirectories) else RecentAfter(old(recentDirectories), chosen))
        && comboItems == (if listing.Failure? then old(comboItems)
                          else ComboAfter(old(recentDirectories), old(comboItems), chosen)))
      ensures old(Valid()) ==> Valid()
    {
      if chosen != "" {
        directory := chosen;
        r := OnDirectoryChange(chosen, isPresent, listing);
        if r.Failure? {
          return;
        }
      } else {
        r := Success(false);
      }
      var raised := UpdateInfoLabel(isPresent, listing);
      if raised.Some? {
        r := Failure(raised.value);
      }
    }
  }
}
