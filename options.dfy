/**
 * How cellSNP normalises its command line values before any work is dispatched: the cell
 * barcode list, the cell and UMI tag names, the chromosome list and the region file option.
 */
module Options {
  import opened Wrappers
  import opened Text
  import opened Decimal
  import opened Ordering

  /** x.rstrip().split("-")[0]: one line of the barcode file reduced to its barcode. */
  function NormaliseBarcode(line: string): (r: string)
    ensures r <= RStrip(line)
    ensures '-' !in r
    ensures |r| == |RStrip(line)| || RStrip(line)[|r|] == '-'
  {
    Split(RStrip(line), '-')[0]
  }

  /** The barcodes of all lines, in line order (the list comprehension). */
  function NormaliseAll(lines: seq<string>): (r: seq<string>)
    ensures |r| == |lines|
  {
    seq(|lines|, i requires 0 <= i < |lines| => NormaliseBarcode(lines[i]))
  }

  /**
   * sorted([x.rstrip().split("-")[0] for x in lines]): one barcode per line, duplicates
   * kept, in ascending order.
   */
  function Barcodes(lines: seq<string>): (r: seq<string>)
    ensures |r| == |lines|
    ensures Sorted(r)
    ensures multiset(r) == multiset(NormaliseAll(lines))
    ensures forall k :: 0 <= k < |r| ==> '-' !in r[k]
  {
    var r := Sort(NormaliseAll(lines));
    assert forall k :: 0 <= k < |r| ==> '-' !in r[k] by {
      forall k | 0 <= k < |r| ensures '-' !in r[k] {
        assert r[k] in multiset(NormaliseAll(lines));
      }
    }
    r
  }

  /** The barcode list is the one sorted arrangement of the normalised lines. */
  lemma BarcodesUnique(lines: seq<string>, s: seq<string>)
    requires Sorted(s) && multiset(s) == multiset(NormaliseAll(lines))
    ensures Barcodes(lines) == s
  {
    SortedUnique(Barcodes(lines), s);
  }

  /** A line "barcode-suffix\n", the suffix not ending in white space, reduces to the barcode. */
  lemma NormaliseTypicalLine(barcode: string, suffix: string)
    requires '-' !in barcode
    requires suffix != [] && !IsSpace(suffix[|suffix| - 1])
    ensures NormaliseBarcode(barcode + ['-'] + suffix + "\n") == barcode
  {
    var x := barcode + ['-'] + suffix;
    assert (x + "\n")[..|x + "\n"| - 1] == x;
    assert RStrip(x + "\n") == x;
    IndexOfAfterPiece(barcode, '-', suffix);
    assert x[..|barcode|] == barcode;
  }

  lemma NormaliseLineAAA()
    ensures NormaliseBarcode("AAA-1\n") == "AAA"
  {
    var a := "AAA" + ['-'] + "1" + "\n";
    NormaliseTypicalLine("AAA", "1");
    assert |a| == 6 && a[0] == 'A' && a[1] == 'A' && a[2] == 'A' && a[3] == '-' && a[4] == '1' && a[5] == '\n';
    assert a == "AAA-1\n";
  }

  lemma NormaliseLineBBB()
    ensures NormaliseBarcode("BBB-2\n") == "BBB"
  {
    var b := "BBB" + ['-'] + "2" + "\n";
    NormaliseTypicalLine("BBB", "2");
    assert |b| == 6 && b[0] == 'B' && b[1] == 'B' && b[2] == 'B' && b[3] == '-' && b[4] == '2' && b[5] == '\n';
    assert b == "BBB-2\n";
  }

  /** [a, a, b] is in order when a <= b. */
  lemma SortedAAB(a: string, b: string)
    requires Le(a, b)
    ensures Sorted([a, a, b])
  {
    LeReflexive(a);
    var s := [a, a, b];
    assert s[0] == a && s[1] == a && s[2] == b;
  }

  /** Two lines with the same barcode both stay in the list, which is in sorted order. */
  lemma BarcodesKeepDuplicates(x: string, y: string)
    requires Le(NormaliseBarcode(x), NormaliseBarcode(y))
    ensures Barcodes([x, y, x]) == [NormaliseBarcode(x), NormaliseBarcode(x), NormaliseBarcode(y)]
  {
    var a, b := NormaliseBarcode(x), NormaliseBarcode(y);
    var lines := [x, y, x];
    assert NormaliseAll(lines) == [a, b, a];
    SortedAAB(a, b);
    assert multiset([a, a, b]) == multiset([a, b, a]);
    BarcodesUnique(lines, [a, a, b]);
  }

  /** Three lines, two of them the same barcode: both copies are kept, in sorted order. */
  lemma BarcodesExample()
    ensures Barcodes(["AAA-1\n", "BBB-2\n", "AAA-1\n"]) == ["AAA", "AAA", "BBB"]
  {
    NormaliseLineAAA();
    NormaliseLineBBB();
    assert Le("AAA", "BBB");
    BarcodesKeepDuplicates("AAA-1\n", "BBB-2\n");
  }

  /** The sixteen ways of writing "none" with either case per letter. */
  predicate SpellsNone(s: string)
  {
    |s| == 4 && s[0] in {'n', 'N'} && s[1] in {'o', 'O'} && s[2] in {'n', 'N'} && s[3] in {'e', 'E'}
  }

  /** upper(s) == "NONE" holds for exactly the case variants of "none". */
  lemma UpperIsNone(s: string)
    ensures Upper(s) == "NONE" <==> SpellsNone(s)
  {
    if |s| == 4 {
      assert Upper(s)[0] == UpperChar(s[0]) && Upper(s)[1] == UpperChar(s[1]);
      assert Upper(s)[2] == UpperChar(s[2]) && Upper(s)[3] == UpperChar(s[3]);
    }
  }

  /** The cell or UMI tag: disabled (None) for any spelling of "none", otherwise the option itself. */
  function TagOption(option: string): (tag: Option<string>)
    ensures tag.None? <==> SpellsNone(option)
    ensures tag.Some? ==> tag.value == option
  {
    UpperIsNone(option);
    if Upper(option) == "NONE" then None else Some(option)
  }

  /** [str(x) for x in range(1, 23)]. */
  function DefaultChroms(): (r: seq<string>)
    ensures |r| == 22
  {
    seq(22, i requires 0 <= i < 22 => NatToDecimal(i + 1))
  }

  /** Read back as numbers, the default chromosome names are 1, 2, ..., 22 in that order. */
  lemma DefaultChromsReadBack()
    ensures forall i :: 0 <= i < 22 ==> IsNumeral(DefaultChroms()[i]) && DecimalValue(DefaultChroms()[i]) == i + 1
  {
    forall i | 0 <= i < 22 ensures IsNumeral(DefaultChroms()[i]) && DecimalValue(DefaultChroms()[i]) == i + 1 {
      DecimalRoundTrip(i + 1);
    }
  }

  /** The default chromosome list is "1" to "22" in numeric order. */
  lemma DefaultChromsAreAutosomes()
    ensures DefaultChroms() == ["1", "2", "3", "4", "5", "6", "7", "8", "9", "10", "11",
                                "12", "13", "14", "15", "16", "17", "18", "19", "20", "21", "22"]
  {
    var names := ["1", "2", "3", "4", "5", "6", "7", "8", "9", "10", "11",
                  "12", "13", "14", "15", "16", "17", "18", "19", "20", "21", "22"];
    forall i | 0 <= i < 22 ensures DefaultChroms()[i] == names[i] {
      var n := i + 1;
      if n >= 10 {
        assert NatToDecimal(n / 10) == [DigitChar(n / 10)];
      }
    }
  }

  /** No chromosome name occurs twice in the default list. */
  lemma DefaultChromsDistinct()
    ensures forall i, j :: 0 <= i < j < 22 ==> DefaultChroms()[i] != DefaultChroms()[j]
  {
    forall i, j | 0 <= i < j < 22 ensures DefaultChroms()[i] != DefaultChroms()[j] {
      DecimalInjective(i + 1, j + 1);
    }
  }

  /**
   * chrom_all: the default list when --chrom is absent, otherwise the comma separated pieces
   * of the option, which joined with commas give the option back.
   */
  function ChromAll(option: Option<string>): (r: seq<string>)
    ensures option.None? ==> r == DefaultChroms()
    ensures option.Some? ==> |r| >= 1 && Join(r, ',') == option.value
    ensures option.Some? ==> forall k :: 0 <= k < |r| ==> ',' !in r[k]
  {
    match option
    case None => DefaultChroms()
    case Some(s) => JoinSplit(s, ','); Split(s, ',')
  }

  /** The pieces of --chrom are the only comma free list that joins to the option. */
  lemma ChromAllUnique(option: string, names: seq<string>)
    requires |names| >= 1 && forall k :: 0 <= k < |names| ==> ',' !in names[k]
    requires Join(names, ',') == option
    ensures ChromAll(Some(option)) == names
  {
    SplitJoin(names, ',');
  }

  /** The region file option counts as absent when not given or given as the literal "None". */
  predicate RegionAbsent(option: Option<string>): (absent: bool)
    ensures absent <==> option == None || option == Some("None")
  {
    option.None? || option.value == "None"
  }
}
