/**
 * The one-line summaries `dry_run` and `download_all` print before they
 * start: the number of snapshots, singular or plural, and a note on the
 * duplicates removed when there were any.
 */
module Summary {
  import opened Sequences
  import opened Decimal
  import opened Rows

  /** The suffix a count puts on its noun: none for exactly one, "s" otherwise. */
  function Plural(n: nat): string {
    if n == 1 then "" else "s"
  }

  /** `"{} <noun>{}"` filled with the count and its plural suffix. */
  function CountPhrase(n: nat, noun: string): string {
    NatToString(n) + " " + noun + Plural(n)
  }

  /** The duplicates note: present only when something was removed. */
  function DuplicateNote(duplicates: nat): string {
    if duplicates != 0 then " (removed " + CountPhrase(duplicates, "duplicate") + ")" else ""
  }

  /** The shape both summary lines share: a lead word, the count of snapshots, the note, a tail. */
  function SummaryLine(lead: string, count: nat, duplicates: nat, tail: string): string {
    lead + CountPhrase(count, "snapshot") + DuplicateNote(duplicates) + tail
  }

  /** The line `dry_run` prints before the list of snapshots. */
  function FoundLine(count: nat, duplicates: nat): string {
    SummaryLine("Found ", count, duplicates, ":")
  }

  /** The line `download_all` prints before it starts downloading. */
  function DownloadingLine(count: nat, duplicates: nat): string {
    SummaryLine("Downloading ", count, duplicates, "...")
  }

  /** The noun is bare exactly for a count of one, and takes an "s" for every other count. */
  lemma CountPhraseSingular(n: nat, noun: string)
    ensures CountPhrase(n, noun) == NatToString(n) + " " + noun <==> n == 1
    ensures CountPhrase(n, noun) == NatToString(n) + " " + noun + "s" <==> n != 1
  {
    var bare := NatToString(n) + " " + noun;
    if n != 1 {
      assert |CountPhrase(n, noun)| == |bare| + 1;
    }
  }

  lemma NoParenthesisInDigits(s: string)
    requires AllDigits(s)
    ensures '(' !in s
  {
  }

  /** A summary line mentions removed duplicates exactly when there were some. */
  lemma SummaryLineNote(lead: string, count: nat, duplicates: nat, tail: string)
    requires '(' !in lead && '(' !in tail
    ensures '(' in SummaryLine(lead, count, duplicates, tail) <==> duplicates != 0
  {
    NoParenthesisInDigits(NatToString(count));
    var note := DuplicateNote(duplicates);
    if duplicates != 0 {
      assert note[1] == '(';
    }
    assert '(' !in (" " + "snapshot") + Plural(count);
    SummaryLineShape(lead, count, duplicates, tail);
  }

  /** Both summary lines mention removed duplicates exactly when there were some. */
  lemma DuplicateNoteShown(count: nat, duplicates: nat)
    ensures '(' in FoundLine(count, duplicates) <==> duplicates != 0
    ensures '(' in DownloadingLine(count, duplicates) <==> duplicates != 0
  {
    SummaryLineNote("Found ", count, duplicates, ":");
    SummaryLineNote("Downloading ", count, duplicates, "...");
  }

  /** A number followed by text that does not start with a digit can be read off unambiguously. */
  lemma NumberThenText(a: nat, x: string, b: nat, y: string)
    requires x != [] && !IsDigit(x[0]) && y != [] && !IsDigit(y[0])
    requires NatToString(a) + x == NatToString(b) + y
    ensures a == b && x == y
  {
    var sa, sb := NatToString(a), NatToString(b);
    assert |sa| == |sb| by {
      assert (sa + x)[|sa|] == x[0] && (sb + y)[|sb|] == y[0];
    }
    assert sa == (sa + x)[..|sa|] && sb == (sb + y)[..|sb|];
    NatToStringInjective(a, b);
    CancelPrefix(sa, x, y);
  }

  /** The count, then the rest of the phrase, which starts with a space. */
  lemma CountPhraseSplit(n: nat, noun: string)
    ensures CountPhrase(n, noun) == NatToString(n) + ((" " + noun) + Plural(n))
  {
    var digits := NatToString(n);
    AppendAssoc(digits + " ", noun, Plural(n));
    AppendAssoc(digits, " ", noun + Plural(n));
    AppendAssoc(" ", noun, Plural(n));
  }

  lemma DuplicateNoteInjective(d1: nat, d2: nat)
    requires DuplicateNote(d1) == DuplicateNote(d2)
    ensures d1 == d2
  {
    if d1 != 0 && d2 != 0 {
      var c1, c2 := CountPhrase(d1, "duplicate"), CountPhrase(d2, "duplicate");
      AppendAssoc(" (removed ", c1, ")");
      AppendAssoc(" (removed ", c2, ")");
      CancelPrefix(" (removed ", c1 + ")", c2 + ")");
      CancelSuffix(c1, c2, ")");
      CountPhraseSplit(d1, "duplicate");
      CountPhraseSplit(d2, "duplicate");
      NumberThenText(d1, (" " + "duplicate") + Plural(d1), d2, (" " + "duplicate") + Plural(d2));
    }
  }

  /** A summary line read from the left: lead, digits, the rest of the count phrase, the note, the tail. */
  lemma SummaryLineShape(lead: string, n: nat, d: nat, tail: string)
    ensures SummaryLine(lead, n, d, tail)
      == lead + (NatToString(n) + (((" " + "snapshot") + Plural(n)) + (DuplicateNote(d) + tail)))
  {
    var phrase, note := CountPhrase(n, "snapshot"), DuplicateNote(d);
    CountPhraseSplit(n, "snapshot");
    AppendAssoc(lead + phrase, note, tail);
    AppendAssoc(lead, phrase, note + tail);
    AppendAssoc(NatToString(n), (" " + "snapshot") + Plural(n), note + tail);
  }

  /** A summary line determines the snapshot count and the duplicate count. */
  lemma SummaryLineInjective(lead: string, n1: nat, d1: nat, n2: nat, d2: nat, tail: string)
    requires SummaryLine(lead, n1, d1, tail) == SummaryLine(lead, n2, d2, tail)
    ensures n1 == n2 && d1 == d2
  {
    var s1, s2 := (" " + "snapshot") + Plural(n1), (" " + "snapshot") + Plural(n2);
    var note1, note2 := DuplicateNote(d1) + tail, DuplicateNote(d2) + tail;
    SummaryLineShape(lead, n1, d1, tail);
    SummaryLineShape(lead, n2, d2, tail);
    CancelPrefix(lead, NatToString(n1) + (s1 + note1), NatToString(n2) + (s2 + note2));
    NumberThenText(n1, s1 + note1, n2, s2 + note2);
    CancelPrefix(s1, note1, note2);
    CancelSuffix(DuplicateNote(d1), DuplicateNote(d2), tail);
    DuplicateNoteInjective(d1, d2);
  }

  /** The "Found" line determines the snapshot count and the duplicate count. */
  lemma FoundLineInjective(n1: nat, d1: nat, n2: nat, d2: nat)
    requires FoundLine(n1, d1) == FoundLine(n2, d2)
    ensures n1 == n2 && d1 == d2
  {
    SummaryLineInjective("Found ", n1, d1, n2, d2, ":");
  }

  /** The "Downloading" line determines the snapshot count and the duplicate count. */
  lemma DownloadingLineInjective(n1: nat, d1: nat, n2: nat, d2: nat)
    requires DownloadingLine(n1, d1) == DownloadingLine(n2, d2)
    ensures n1 == n2 && d1 == d2
  {
    SummaryLineInjective("Downloading ", n1, d1, n2, d2, "...");
  }

  /** Three rows, the third repeating the first one's original URL: the first two are kept. */
  lemma DryRunExampleRows(x: Row, y: Row, z: Row)
    requires x.original != y.original && z.original == x.original
    ensures ListRows([x, y, z]) == Listing([x, y], 1)
  {
    assert [x, y, z][1..] == [y, z] && [y, z][1..] == [z] && [z][1..] == [];
    assert {} + {x.original} == {x.original};
    assert {x.original} + {y.original} == {x.original, y.original};
    assert DedupFrom([z], {x.original, y.original}) == [];
    assert DedupFrom([y, z], {x.original}) == [y];
  }

  /** The count phrase for two snapshots. */
  lemma TwoSnapshots()
    ensures CountPhrase(2, "snapshot") == "2 snapshots"
  {
    assert NatToString(2) == "2";
  }

  /** The note for one duplicate: singular noun. */
  lemma OneDuplicate()
    ensures DuplicateNote(1) == " (removed 1 duplicate)"
  {
    assert NatToString(1) == "1";
    assert CountPhrase(1, "duplicate") == "1 duplicate";
  }

  /** What a dry run over those rows announces. */
  lemma DryRunExampleLine()
    ensures FoundLine(2, 1) == "Found " + "2 snapshots" + " (removed 1 duplicate)" + ":"
  {
    TwoSnapshots();
    OneDuplicate();
  }
}
