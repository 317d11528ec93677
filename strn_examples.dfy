/**
 * The help formatter on the inputs of the library's own tests: each lemma
 * states the text PST_snhiprintf leaves in a 1024-byte buffer. The texts
 * are words joined by single blanks, so the layout is the greedy fill of
 * those words (Strn.FlowJoined), worked out one word at a time.
 */
module StrnExamples {
  import opened Errors
  import opened Strn

  const SampleWords: seq<string> := ["1234567890", "this", "is", "sample"]

  /** The sample words are words the parser keeps whole. */
  lemma SampleWordsWhole()
    ensures forall i :: 0 <= i < |SampleWords| ==> Word(SampleWords[i])
  {
    assert Word("1234567890");
    assert Word("this");
    assert Word("is");
    assert Word("sample");
  }

  /** The sample text of the tests is its four words joined by blanks. */
  lemma SampleJoined(desc: string)
    requires desc == "1234567890 this is sample"
    ensures desc == Join(SampleWords)
  {
    assert "is" + " " + "sample" == "is sample";
    assert "this" + " " + "is sample" == "this is sample";
    assert "1234567890" + " " + "this is sample" == "1234567890 this is sample";
  }

  /** The first sample word fits after a header that ends at column 10. */
  lemma SampleStep1(out: string)
    ensures Lay(Frame(20, 10), Pen(out, 10, false, 0), "1234567890", 10) == Pen(out + "1234567890", 20, true, 0)
  {
    LayFits(Frame(20, 10), Pen(out, 10, false, 0), "1234567890", 10);
    assert "" + "1234567890" == "1234567890";
  }

  /** The second sample word does not fit on a full row and starts the next one at the indentation. */
  lemma SampleStep2(out: string)
    ensures Lay(Frame(20, 10), Pen(out, 20, true, 0), "this", 4) == Pen(out + "\n" + "          this", 14, true, 0)
  {
    LayWraps(Frame(20, 10), Pen(out, 20, true, 0), "this", 4);
    assert Spaces(10) == "          ";
    assert "          " + "this" == "          this";
  }

  /** The third sample word fits after a blank. */
  lemma SampleStep3(out: string)
    ensures Lay(Frame(20, 10), Pen(out, 14, true, 0), "is", 2) == Pen(out + " is", 17, true, 0)
  {
    LayFits(Frame(20, 10), Pen(out, 14, true, 0), "is", 2);
  }

  /** The last sample word would end past column 20 and starts the next row. */
  lemma SampleStep4(out: string)
    ensures Lay(Frame(20, 10), Pen(out, 17, true, 0), "sample", 6) == Pen(out + "\n" + "          sample", 16, true, 0)
  {
    LayWraps(Frame(20, 10), Pen(out, 17, true, 0), "sample", 6);
    assert Spaces(10) == "          ";
    assert "          " + "sample" == "          sample";
  }

  /** The sample words after a header that ends at column 10, in rows of 20 at indentation 10. */
  lemma SampleFill(out: string)
    ensures Fill(SampleWords, Frame(20, 10), Pen(out, 10, false, 0))
         == out + "1234567890" + "\n" + "          this" + " is" + "\n" + "          sample"
  {
    var f := Frame(20, 10);
    var o1 := out + "1234567890";
    var o2 := o1 + "\n" + "          this";
    var o3 := o2 + " is";
    var o4 := o3 + "\n" + "          sample";
    SampleStep1(out);
    SampleStep2(o1);
    SampleStep3(o2);
    SampleStep4(o3);
    var ws1 := SampleWords[1..];
    var ws2 := ws1[1..];
    var ws3 := ws2[1..];
    assert ws1 == ["this", "is", "sample"];
    assert ws2 == ["is", "sample"];
    assert ws3 == ["sample"];
    assert Fill(ws3, f, Pen(o3, 17, true, 0)) == o4;
    assert Fill(ws2, f, Pen(o2, 14, true, 0)) == o4;
    assert Fill(ws1, f, Pen(o1, 20, true, 0)) == o4;
  }

  /** The laid-out sample, regrouped into the rows the tests write. */
  lemma SampleRows(out: string)
    ensures out + "1234567890" + "\n" + "          this" + " is" + "\n" + "          sample"
         == (out + "1234567890\n") + "          this is\n" + "          sample"
  {
    assert "1234567890" + "\n" == "1234567890\n";
    assert "          this" + " is" == "          this is";
    assert "          this is" + "\n" == "          this is\n";
  }

  /** A short name: the delimiter stays on the name line and the text starts at column 10. */
  lemma ShortHeader()
    ensures Head(20, 2, 10, Some("-i"), '-') == (Frame(20, 10), Pen("  -i    - ", 10, false, 0))
  {
    CStringWhole("-i");
    assert Spaces(2) == "  " && Spaces(3) == "   ";
    assert Lead(2, 10, "-i") == "  -i   ";
    assert Delimit("  -i   ", 10, '-') == " - ";
    assert "  -i   " + " - " == "  -i    - ";
  }

  /** The long name with its indentation reaches past the delimiter's column, so there is no padding. */
  lemma LongLead()
    ensures Lead(2, 10, "--lon-param") == "  --lon-param"
  {
    assert Spaces(2) == "  " && Spaces(0) == [];
    assert "  " + "--lon-param" == "  --lon-param";
  }

  /** The delimiter of the long name goes to the next line, under the header. */
  lemma LongDelimit()
    ensures Delimit("  --lon-param", 10, '-') == "\n" + "        - "
  {
    assert Spaces(7) == "       ";
    assert "       " + " " == "        ";
    assert "        " + ['-'] == "        -";
    assert "        -" + " " == "        - ";
  }

  /** The name line of the long header. */
  lemma LongNameLine()
    ensures "  --lon-param" + "\n" == "  --lon-param\n"
  {
  }

  /** The delimiter line of the long header starts the sample's first row. */
  lemma LongDelimiterLine()
    ensures "        - " + "1234567890\n" == "        - 1234567890\n"
  {
  }

  /** A name longer than the header: the delimiter moves to the next line, under the header. */
  lemma LongHeader(name: string)
    requires name == "--lon-param"
    ensures Head(20, 2, 10, Some(name), '-') == (Frame(20, 10), Pen("  --lon-param\n" + "        - ", 10, false, 0))
  {
    HeadColumn(20, 2, 10, name, '-');
    CStringWhole(name);
    LongLead();
    LongDelimit();
    LongNameLine();
    Regroup("  --lon-param", "\n", "        - ", "  --lon-param\n");
  }

  /** Concatenation regrouped around a known prefix. */
  lemma Regroup(a: string, b: string, c: string, ab: string)
    requires a + b == ab
    ensures a + (b + c) == ab + c
  {
    assert a + (b + c) == (a + b) + c;
  }

  /** The sample text after any header that leaves the pen at column 10 of a 20-column frame indented at 10. */
  lemma SampleHelp(name: string, out: string, desc: string)
    requires Head(20, 2, 10, Some(name), '-') == (Frame(20, 10), Pen(out, 10, false, 0)) && |out| < 900
    requires desc == "1234567890 this is sample"
    ensures Help(1024, 2, 10, 20, Some(name), '-', desc)
         == (out + "1234567890\n") + "          this is\n" + "          sample"
  {
    var f, pen := Frame(20, 10), Pen(out, 10, false, 0);
    SampleJoined(desc);
    SampleWordsWhole();
    FlowJoined(SampleWords, f, pen);
    SampleFill(out);
    SampleRows(out);
    HelpWhole(1024, 2, 10, 20, Some(name), '-', desc);
  }

  /** The first help text of the tests, with a short parameter name. */
  lemma SampleWithShortName(desc: string)
    requires desc == "1234567890 this is sample"
    ensures Help(1024, 2, 10, 20, Some("-i"), '-', desc)
         == "  -i    - 1234567890\n" + "          this is\n" + "          sample"
  {
    ShortHeader();
    SampleHelp("-i", "  -i    - ", desc);
    assert "  -i    - " + "1234567890\n" == "  -i    - 1234567890\n";
  }

  /** The second help text of the tests, with a parameter name that does not fit the header. */
  lemma SampleWithLongName(name: string, desc: string)
    requires name == "--lon-param" && desc == "1234567890 this is sample"
    ensures Help(1024, 2, 10, 20, Some(name), '-', desc)
         == "  --lon-param\n" + "        - 1234567890\n" + "          this is\n" + "          sample"
  {
    LongHeader(name);
    SampleHelp(name, "  --lon-param\n" + "        - ", desc);
    LongDelimiterLine();
    Reassoc("  --lon-param\n", "        - ", "1234567890\n", "        - 1234567890\n");
  }

  /** Concatenation regrouped around a known suffix. */
  lemma Reassoc(a: string, b: string, c: string, bc: string)
    requires b + c == bc
    ensures (a + b) + c == a + bc
  {
  }

  /** A one-word description follows the short header on the same line. */
  lemma OneWord(desc: string)
    requires desc == "word"
    ensures Help(1024, 2, 10, 20, Some("-i"), '-', desc) == "  -i    - word"
  {
    var f, pen := Frame(20, 10), Pen("  -i    - ", 10, false, 0);
    ShortHeader();
    assert Word("word");
    assert Join(["word"]) == desc;
    FlowJoined(["word"], f, pen);
    LayFits(f, pen, "word", 4);
    assert Fill(["word"], f, pen) == "  -i    - " + ("" + "word");
    OneWordLine();
    HelpWhole(1024, 2, 10, 20, Some("-i"), '-', desc);
  }

  /** The short header followed by the one word. */
  lemma OneWordLine()
    ensures "  -i    - " + ("" + "word") == "  -i    - word"
  {
  }

  const RegularWords: seq<string> := ["1234567890", "regular", "text"]

  /** Without a name the text starts at the indentation; the words that do not fit start new rows. */
  lemma RegularFill(out: string)
    ensures Fill(RegularWords, Frame(20, 10), Pen(out, 10, false, 0))
         == out + "1234567890" + "\n" + "          regular" + "\n" + "          text"
  {
    var f := Frame(20, 10);
    var o1 := out + "1234567890";
    var o2 := o1 + "\n" + "          regular";
    var o3 := o2 + "\n" + "          text";
    SampleStep1(out);
    RegularStep2(o1);
    RegularStep3(o2);
    var ws1 := RegularWords[1..];
    var ws2 := ws1[1..];
    assert ws1 == ["regular", "text"];
    assert ws2 == ["text"];
    assert Fill(ws2, f, Pen(o2, 17, true, 0)) == o3;
    assert Fill(ws1, f, Pen(o1, 20, true, 0)) == o3;
  }

  /** The second regular word starts a new row. */
  lemma RegularStep2(out: string)
    ensures Lay(Frame(20, 10), Pen(out, 20, true, 0), "regular", 7) == Pen(out + "\n" + "          regular", 17, true, 0)
  {
    LayWraps(Frame(20, 10), Pen(out, 20, true, 0), "regular", 7);
    assert Spaces(10) == "          ";
    assert "          " + "regular" == "          regular";
  }

  /** The third regular word would end past column 20 and starts a new row. */
  lemma RegularStep3(out: string)
    ensures Lay(Frame(20, 10), Pen(out, 17, true, 0), "text", 4) == Pen(out + "\n" + "          text", 14, true, 0)
  {
    LayWraps(Frame(20, 10), Pen(out, 17, true, 0), "text", 4);
    assert Spaces(10) == "          ";
    assert "          " + "text" == "          text";
  }

  /** The regular text of the tests, laid out without a parameter name at indentation 10. */
  lemma RegularText(desc: string)
    requires desc == "1234567890 regular text"
    ensures Help(1024, 10, 0, 20, None, '\0', desc)
         == "          1234567890\n" + "          regular\n" + "          text"
  {
    var f, pen := Frame(20, 10), Pen(Spaces(10), 10, false, 0);
    RegularJoined(desc);
    FlowJoined(RegularWords, f, pen);
    RegularFill(Spaces(10));
    RegularRows();
    HelpWhole(1024, 10, 0, 20, None, '\0', desc);
  }

  /** The regular text is its three words joined by blanks, each kept whole. */
  lemma RegularJoined(desc: string)
    requires desc == "1234567890 regular text"
    ensures desc == Join(RegularWords) && forall i :: 0 <= i < |RegularWords| ==> Word(RegularWords[i])
  {
    assert "regular" + " " + "text" == "regular text";
    assert "1234567890" + " " + "regular text" == desc;
    assert Word("1234567890") && Word("regular") && Word("text");
  }

  /** The laid-out regular text, regrouped into the rows the tests write. */
  lemma RegularRows()
    ensures Spaces(10) + "1234567890" + "\n" + "          regular" + "\n" + "          text"
         == "          1234567890\n" + "          regular\n" + "          text"
  {
    assert Spaces(10) == "          ";
    assert "          " + "1234567890" == "          1234567890";
    assert "          1234567890" + "\n" == "          1234567890\n";
    assert "          regular" + "\n" == "          regular\n";
  }

  /** An unknown escape ends the text: the word before it is kept and the error is written in its place. */
  lemma ParseErrorText(desc: string)
    requires desc == "Test\\k"
    ensures Help(1024, 10, 0, 20, None, '\0', desc) == "          Test<Parse error: '\\k'>"
  {
    var f, pen := Frame(20, 10), Pen(Spaces(10), 10, false, 0);
    assert PlainChar(desc[0]) && PlainChar(desc[1]) && PlainChar(desc[2]) && PlainChar(desc[3]);
    TokensError(desc, 0, 0, 4);
    assert desc[0..4] == "Test";
    var w := "Test" + ErrorText('k');
    assert Fit(ErrorText('k'), WordCap - 4) == ErrorText('k');
    assert Tokens(desc, 0) == [Scan(w, -1, None)];
    FlowLast(desc, Scan(w, -1, None), [], f, pen);
    ErrorLine();
    HelpWhole(1024, 10, 0, 20, None, '\0', desc);
  }

  /** The indentation, the kept word and the error message. */
  lemma ErrorLine()
    ensures Spaces(10) + ("Test" + ErrorText('k')) == "          Test<Parse error: '\\k'>"
  {
    assert Spaces(10) == "          ";
    ErrorMessage();
    ErrorWord();
    ErrorIndented();
  }

  /** The message for the escape k. */
  lemma ErrorMessage()
    ensures ErrorText('k') == "<Parse error: '\\k'>"
  {
    assert "<Parse error: '\\" + ['k'] == "<Parse error: '\\k";
  }

  /** The kept word and the message. */
  lemma ErrorWord()
    ensures "Test" + "<Parse error: '\\k'>" == "Test<Parse error: '\\k'>"
  {
  }

  /** The line at indentation 10. */
  lemma ErrorIndented()
    ensures "          " + "Test<Parse error: '\\k'>" == "          Test<Parse error: '\\k'>"
  {
  }

  /** The argument checks of the tests: each call writes nothing and returns 0. */
  method RefusedCalls() returns (counts: seq<nat>, first: char)
    ensures counts == [0, 0, 0, 0, 0] && first == '\0'
  {
    var buf := new char[1024](_ => '\0');
    var txt := Some("text text text text");
    var c0 := Snhiprintf(null, 1024, 0, 0, 0, None, '\0', txt);
    var c1 := Snhiprintf(buf, 0, 0, 0, 0, None, '\0', txt);
    var c2 := Snhiprintf(buf, 1024, 5, 5, 0, None, '\0', txt);
    var c3 := Snhiprintf(buf, 1024, 5, 0, 5, Some("--plah"), '\0', txt);
    var c4 := Snhiprintf(buf, 1024, 5, 3, 3, Some("--plah"), '\0', txt);
    counts, first := [c0, c1, c2, c3, c4], buf[0];
  }

  // ---------------------------------------------------------------------
  // Indentation changes in a text without a header
  // ---------------------------------------------------------------------

  /** A word that "\>" follows directly, read from a window of the text. */
  lemma WordThenIndent(desc: string, p: nat, q: nat, w: string)
    requires p <= q && q + |w| + 2 <= |desc| && 0 < |w| && |w| + 1 < WordCap - 1
    requires forall j :: p <= j < q ==> desc[j] == ' '
    requires desc[q..q + |w| + 2] == w + "\\>"
    requires forall i :: 0 <= i < |w| ==> PlainChar(w[i])
    ensures Tokens(desc, p) == [Scan(w, -1, Some(q + |w|))] + Tokens(desc, q + |w|)
  {
    var k := |w|;
    assert forall j :: q <= j < q + k ==> desc[j] == desc[q..q + k + 2][j - q] == w[j - q];
    assert desc[q + k] == desc[q..q + k + 2][k] == '\\';
    assert desc[q + k + 1] == desc[q..q + k + 2][k + 1] == '>';
    assert desc[q..q + k] == w;
    TokensWordBeforeIndent(desc, p, q, k);
  }

  /** A word that a blank or the end of the text follows, read from a window of the text. */
  lemma WordThenBlank(desc: string, p: nat, q: nat, w: string)
    requires p <= q && q + |w| <= |desc| && 0 < |w| < WordCap - 1
    requires forall j :: p <= j < q ==> desc[j] == ' '
    requires desc[q..q + |w|] == w
    requires forall i :: 0 <= i < |w| ==> PlainChar(w[i])
    requires At(desc, q + |w|) == '\0' || IsSpace(At(desc, q + |w|))
    ensures Tokens(desc, p) == [Scan(w, -1, Some(q + |w|))] + Tokens(desc, q + |w|)
  {
    var k := |w|;
    assert forall j :: q <= j < q + k ==> desc[j] == desc[q..q + k][j - q] == w[j - q];
    TokensWord(desc, p, q, k);
  }

  /** "\>" and its digits, read from a window of the text, carry the offset the digits spell. */
  lemma IndentThen(desc: string, p: nat, q: nat, digits: string)
    requires p <= q && q + 2 + |digits| <= |desc| && 2 + |digits| < WordCap
    requires forall j :: p <= j < q ==> desc[j] == ' '
    requires desc[q..q + 2 + |digits|] == "\\>" + digits
    requires forall i :: 0 <= i < |digits| ==> IsDigit(digits[i])
    requires var c := At(desc, q + 2 + |digits|); !IsDigit(c) && c != '-'
    ensures Tokens(desc, p) == [Scan([], Number(0, digits), Some(q + 2 + |digits|))] + Tokens(desc, q + 2 + |digits|)
  {
    var k := |digits|;
    var win := desc[q..q + 2 + k];
    assert desc[q] == win[0] == '\\' && desc[q + 1] == win[1] == '>';
    assert forall j :: q + 2 <= j < q + 2 + k ==> desc[j] == win[j - q] == digits[j - q - 2];
    assert desc[q + 2..q + 2 + k] == digits;
    TokensIndent(desc, p, q, false, k);
  }

  /** The text of the indentation test without a header, "1234567890\\>2 regular text\\>extension\\>4\na\\>0\nto 0", piece by piece. */
  const ShiftDesc := "1234567890" + "\\>" + "2" + " " + "regular" + " " + "text" + "\\>" + "extension"
    + "\\>" + "4" + "\n" + "a" + "\\>" + "0" + "\n" + "to" + " " + "0"

  // The tokens of that text, each read from its own window of the text.

  lemma ShiftToken0(desc: string)
    requires |desc| == 50 && desc[0..12] == "1234567890" + "\\>"
    ensures Tokens(desc, 0) == [Scan("1234567890", -1, Some(10))] + Tokens(desc, 10)
  {
    WordThenIndent(desc, 0, 0, "1234567890");
  }

  lemma ShiftWindow0(desc: string)
    requires desc == ShiftDesc
    ensures |desc| == 50 && desc[0..12] == "1234567890" + "\\>"
  {
  }

  lemma ShiftToken10(desc: string)
    requires |desc| == 50 && desc[10..13] == "\\>" + "2" && At(desc, 13) == ' '
    ensures Tokens(desc, 10) == [Scan([], 2, Some(13))] + Tokens(desc, 13)
  {
    assert Number(0, "2") == 2;
    IndentThen(desc, 10, 10, "2");
  }

  lemma ShiftWindow10(desc: string)
    requires desc == ShiftDesc
    ensures |desc| == 50 && desc[10..13] == "\\>" + "2" && At(desc, 13) == ' '
  {
    assert desc[10] == '\\' && desc[11] == '>' && desc[12] == '2';
  }

  lemma ShiftToken13(desc: string)
    requires |desc| == 50 && desc[13] == ' ' && desc[14..21] == "regular" && desc[21] == ' '
    ensures Tokens(desc, 13) == [Scan("regular", -1, Some(21))] + Tokens(desc, 21)
  {
    WordThenBlank(desc, 13, 14, "regular");
  }

  lemma ShiftWindow13(desc: string)
    requires desc == ShiftDesc
    ensures |desc| == 50 && desc[13] == ' ' && desc[14..21] == "regular" && desc[21] == ' '
  {
  }

  lemma ShiftToken21(desc: string)
    requires |desc| == 50 && desc[21] == ' ' && desc[22..28] == "text" + "\\>"
    ensures Tokens(desc, 21) == [Scan("text", -1, Some(26))] + Tokens(desc, 26)
  {
    WordThenIndent(desc, 21, 22, "text");
  }

  lemma ShiftWindow21(desc: string)
    requires desc == ShiftDesc
    ensures |desc| == 50 && desc[21] == ' ' && desc[22..28] == "text" + "\\>"
  {
  }

  lemma ShiftToken26(desc: string)
    requires |desc| == 50 && desc[26..28] == "\\>" + [] && desc[28] == 'e'
    ensures Tokens(desc, 26) == [Scan([], 0, Some(28))] + Tokens(desc, 28)
  {
    assert Number(0, []) == 0;
    IndentThen(desc, 26, 26, []);
  }

  lemma ShiftWindow26(desc: string)
    requires desc == ShiftDesc
    ensures |desc| == 50 && desc[26..28] == "\\>" + [] && desc[28] == 'e'
  {
  }

  lemma ShiftToken28(desc: string)
    requires |desc| == 50 && desc[28..39] == "extension" + "\\>"
    ensures Tokens(desc, 28) == [Scan("extension", -1, Some(37))] + Tokens(desc, 37)
  {
    WordThenIndent(desc, 28, 28, "extension");
  }

  lemma ShiftWindow28(desc: string)
    requires desc == ShiftDesc
    ensures |desc| == 50 && desc[28..39] == "extension" + "\\>"
  {
  }

  lemma ShiftToken37(desc: string)
    requires |desc| == 50 && desc[37..40] == "\\>" + "4" && desc[40] == '\n'
    ensures Tokens(desc, 37) == [Scan([], 4, Some(40))] + Tokens(desc, 40)
  {
    assert Number(0, "4") == 4;
    IndentThen(desc, 37, 37, "4");
  }

  lemma ShiftWindow37(desc: string)
    requires desc == ShiftDesc
    ensures |desc| == 50 && desc[37..40] == "\\>" + "4" && desc[40] == '\n'
  {
  }

  lemma ShiftToken40(desc: string)
    requires |desc| == 50 && desc[40] == '\n' && desc[41] == 'a'
    ensures Tokens(desc, 40) == [Scan("\n", -1, Some(41))] + Tokens(desc, 41) && At(desc, 41) == 'a'
  {
    TokensNewline(desc, 40, 40);
  }

  lemma ShiftWindow40(desc: string)
    requires desc == ShiftDesc
    ensures |desc| == 50 && desc[40] == '\n' && desc[41] == 'a'
  {
  }

  lemma ShiftToken41(desc: string)
    requires |desc| == 50 && desc[41..44] == "a" + "\\>"
    ensures Tokens(desc, 41) == [Scan("a", -1, Some(42))] + Tokens(desc, 42)
  {
    WordThenIndent(desc, 41, 41, "a");
  }

  lemma ShiftWindow41(desc: string)
    requires desc == ShiftDesc
    ensures |desc| == 50 && desc[41..44] == "a" + "\\>"
  {
  }

  lemma ShiftToken42(desc: string)
    requires |desc| == 50 && desc[42..45] == "\\>" + "0" && desc[45] == '\n'
    ensures Tokens(desc, 42) == [Scan([], 0, Some(45))] + Tokens(desc, 45)
  {
    assert Number(0, "0") == 0;
    IndentThen(desc, 42, 42, "0");
  }

  lemma ShiftWindow42(desc: string)
    requires desc == ShiftDesc
    ensures |desc| == 50 && desc[42..45] == "\\>" + "0" && desc[45] == '\n'
  {
  }

  lemma ShiftToken45(desc: string)
    requires |desc| == 50 && desc[45] == '\n' && desc[46] == 't'
    ensures Tokens(desc, 45) == [Scan("\n", -1, Some(46))] + Tokens(desc, 46) && At(desc, 46) == 't'
  {
    TokensNewline(desc, 45, 45);
  }

  lemma ShiftWindow45(desc: string)
    requires desc == ShiftDesc
    ensures |desc| == 50 && desc[45] == '\n' && desc[46] == 't'
  {
  }

  lemma ShiftToken46(desc: string)
    requires |desc| == 50 && desc[46..48] == "to" && desc[48] == ' '
    ensures Tokens(desc, 46) == [Scan("to", -1, Some(48))] + Tokens(desc, 48)
  {
    WordThenBlank(desc, 46, 46, "to");
  }

  lemma ShiftWindow46(desc: string)
    requires desc == ShiftDesc
    ensures |desc| == 50 && desc[46..48] == "to" && desc[48] == ' '
  {
  }

  lemma ShiftToken48(desc: string)
    requires |desc| == 50 && desc[48] == ' ' && desc[49..50] == "0"
    ensures Tokens(desc, 48) == [Scan("0", -1, Some(50))] + Tokens(desc, 50)
    ensures Tokens(desc, 50) == [Scan([], -1, None)]
  {
    WordThenBlank(desc, 48, 49, "0");
    TokensEnd(desc, 50);
  }

  lemma ShiftWindow48(desc: string)
    requires desc == ShiftDesc
    ensures |desc| == 50 && desc[48] == ' ' && desc[49..50] == "0"
  {
  }

  // The layout of those tokens in rows of 20 at indentation 10, one token at a time.

  /** The rows of the indentation test are 20 long, indented at 10. */
  const ShiftFrame := Frame(20, 10)

  lemma ShiftLay0(desc: string, ts: seq<Scan>, out: string)
    ensures Flow(desc, [Scan("1234567890", -1, Some(10))] + ts, ShiftFrame, Pen(out, 10, false, 0))
         == Flow(desc, ts, ShiftFrame, Pen(out + "1234567890", 20, true, 0))
  {
    FlowWord(desc, "1234567890", 10, ts, ShiftFrame, Pen(out, 10, false, 0));
    LayFits(ShiftFrame, Pen(out, 10, false, 0), "1234567890", 10);
    assert "" + "1234567890" == "1234567890";
  }

  /** "\>2" moves the indentation of the rows that follow 2 to the right. */
  lemma ShiftLay10(desc: string, ts: seq<Scan>, out: string)
    ensures Flow(desc, [Scan([], 2, Some(13))] + ts, ShiftFrame, Pen(out, 20, true, 0))
         == Flow(desc, ts, ShiftFrame, Pen(out, 20, true, 2))
  {
    FlowIndent(desc, 2, 13, ts, ShiftFrame, Pen(out, 20, true, 0));
  }

  lemma ShiftLay13(desc: string, ts: seq<Scan>, out: string)
    ensures Flow(desc, [Scan("regular", -1, Some(21))] + ts, ShiftFrame, Pen(out, 20, true, 2))
         == Flow(desc, ts, ShiftFrame, Pen(out + ("\n" + "            regular"), 19, true, 2))
  {
    FlowWord(desc, "regular", 21, ts, ShiftFrame, Pen(out, 20, true, 2));
    LayWraps(ShiftFrame, Pen(out, 20, true, 2), "regular", 7);
    assert Spaces(12) == "            ";
    assert "\n" + "            " + "regular" == "\n" + "            regular";
  }

  lemma ShiftLay21(desc: string, ts: seq<Scan>, out: string)
    ensures Flow(desc, [Scan("text", -1, Some(26))] + ts, ShiftFrame, Pen(out, 19, true, 2))
         == Flow(desc, ts, ShiftFrame, Pen(out + ("\n" + "            text"), 16, true, 2))
  {
    FlowWord(desc, "text", 26, ts, ShiftFrame, Pen(out, 19, true, 2));
    LayWraps(ShiftFrame, Pen(out, 19, true, 2), "text", 4);
    assert Spaces(12) == "            ";
    assert "\n" + "            " + "text" == "\n" + "            text";
  }

  /** "\>" alone moves the indentation back to 10. */
  lemma ShiftLay26(desc: string, ts: seq<Scan>, out: string)
    ensures Flow(desc, [Scan([], 0, Some(28))] + ts, ShiftFrame, Pen(out, 16, true, 2))
         == Flow(desc, ts, ShiftFrame, Pen(out, 16, true, 0))
  {
    FlowIndent(desc, 0, 28, ts, ShiftFrame, Pen(out, 16, true, 2));
  }

  lemma ShiftLay28(desc: string, ts: seq<Scan>, out: string)
    ensures Flow(desc, [Scan("extension", -1, Some(37))] + ts, ShiftFrame, Pen(out, 16, true, 0))
         == Flow(desc, ts, ShiftFrame, Pen(out + ("\n" + "          extension"), 19, true, 0))
  {
    FlowWord(desc, "extension", 37, ts, ShiftFrame, Pen(out, 16, true, 0));
    LayWraps(ShiftFrame, Pen(out, 16, true, 0), "extension", 9);
    assert Spaces(10) == "          ";
    assert "\n" + "          " + "extension" == "\n" + "          extension";
  }

  lemma ShiftLay37(desc: string, ts: seq<Scan>, out: string)
    ensures Flow(desc, [Scan([], 4, Some(40))] + ts, ShiftFrame, Pen(out, 19, true, 0))
         == Flow(desc, ts, ShiftFrame, Pen(out, 19, true, 4))
  {
    FlowIndent(desc, 4, 40, ts, ShiftFrame, Pen(out, 19, true, 0));
  }

  /** A newline inside the text starts a row at the current indentation, 14. */
  lemma ShiftLay40(desc: string, ts: seq<Scan>, out: string)
    requires At(desc, 41) == 'a'
    ensures Flow(desc, [Scan("\n", -1, Some(41))] + ts, ShiftFrame, Pen(out, 19, true, 4))
         == Flow(desc, ts, ShiftFrame, Pen(out + ("\n" + "              "), 14, false, 4))
  {
    FlowNewline(desc, 41, ts, ShiftFrame, Pen(out, 19, true, 4));
    LayWraps(ShiftFrame, Pen(out, 21, false, 4), [], 1);
    assert Spaces(14) == "              ";
    assert "\n" + "              " + [] == "\n" + "              ";
  }

  lemma ShiftLay41(desc: string, ts: seq<Scan>, out: string)
    ensures Flow(desc, [Scan("a", -1, Some(42))] + ts, ShiftFrame, Pen(out, 14, false, 4))
         == Flow(desc, ts, ShiftFrame, Pen(out + "a", 15, true, 4))
  {
    FlowWord(desc, "a", 42, ts, ShiftFrame, Pen(out, 14, false, 4));
    LayFits(ShiftFrame, Pen(out, 14, false, 4), "a", 1);
    assert "" + "a" == "a";
  }

  lemma ShiftLay42(desc: string, ts: seq<Scan>, out: string)
    ensures Flow(desc, [Scan([], 0, Some(45))] + ts, ShiftFrame, Pen(out, 15, true, 4))
         == Flow(desc, ts, ShiftFrame, Pen(out, 15, true, 0))
  {
    FlowIndent(desc, 0, 45, ts, ShiftFrame, Pen(out, 15, true, 4));
  }

  /** The second newline starts a row at indentation 10. */
  lemma ShiftLay45(desc: string, ts: seq<Scan>, out: string)
    requires At(desc, 46) == 't'
    ensures Flow(desc, [Scan("\n", -1, Some(46))] + ts, ShiftFrame, Pen(out, 15, true, 0))
         == Flow(desc, ts, ShiftFrame, Pen(out + ("\n" + "          "), 10, false, 0))
  {
    FlowNewline(desc, 46, ts, ShiftFrame, Pen(out, 15, true, 0));
    LayWraps(ShiftFrame, Pen(out, 21, false, 0), [], 1);
    assert Spaces(10) == "          ";
    assert "\n" + "          " + [] == "\n" + "          ";
  }

  lemma ShiftLay46(desc: string, ts: seq<Scan>, out: string)
    ensures Flow(desc, [Scan("to", -1, Some(48))] + ts, ShiftFrame, Pen(out, 10, false, 0))
         == Flow(desc, ts, ShiftFrame, Pen(out + "to", 12, true, 0))
  {
    FlowWord(desc, "to", 48, ts, ShiftFrame, Pen(out, 10, false, 0));
    LayFits(ShiftFrame, Pen(out, 10, false, 0), "to", 2);
    assert "" + "to" == "to";
  }

  /** The last word fits after a blank, and the text ends there. */
  lemma ShiftLay48(desc: string, out: string)
    ensures Flow(desc, [Scan("0", -1, Some(50)), Scan([], -1, None)], ShiftFrame, Pen(out, 12, true, 0))
         == out + " 0"
  {
    var last := [Scan([], -1, None)];
    assert [Scan("0", -1, Some(50)), Scan([], -1, None)] == [Scan("0", -1, Some(50))] + last;
    FlowWord(desc, "0", 50, last, ShiftFrame, Pen(out, 12, true, 0));
    LayFits(ShiftFrame, Pen(out, 12, true, 0), "0", 1);
    assert last == [Scan([], -1, None)] + [];
    FlowLast(desc, Scan([], -1, None), [], ShiftFrame, Pen(out + " 0", 14, true, 0));
    assert out + " 0" + [] == out + " 0";
  }

  /** The first line and the two rows indented by 2 more. */
  lemma ShiftFront(desc: string, out: string)
    requires desc == ShiftDesc
    ensures Flow(desc, Tokens(desc, 0), ShiftFrame, Pen(out, 10, false, 0))
         == Flow(desc, Tokens(desc, 28), ShiftFrame,
              Pen(out + "1234567890" + ("\n" + "            regular") + ("\n" + "            text"), 16, true, 0))
  {
    var o1 := out + "1234567890";
    var o2 := o1 + ("\n" + "            regular");
    var o3 := o2 + ("\n" + "            text");
    ShiftWindow0(desc);
    ShiftToken0(desc);
    ShiftLay0(desc, Tokens(desc, 10), out);
    ShiftWindow10(desc);
    ShiftToken10(desc);
    ShiftLay10(desc, Tokens(desc, 13), o1);
    ShiftWindow13(desc);
    ShiftToken13(desc);
    ShiftLay13(desc, Tokens(desc, 21), o1);
    ShiftWindow21(desc);
    ShiftToken21(desc);
    ShiftLay21(desc, Tokens(desc, 26), o2);
    ShiftWindow26(desc);
    ShiftToken26(desc);
    ShiftLay26(desc, Tokens(desc, 28), o3);
  }

  /** "extension" back at 10, then "a" at 14 after a newline. */
  lemma ShiftBack(desc: string, out: string)
    requires desc == ShiftDesc
    ensures Flow(desc, Tokens(desc, 28), ShiftFrame, Pen(out, 16, true, 0))
         == Flow(desc, Tokens(desc, 42), ShiftFrame,
              Pen(out + ("\n" + "          extension") + ("\n" + "              ") + "a", 15, true, 4))
  {
    var o1 := out + ("\n" + "          extension");
    var o2 := o1 + ("\n" + "              ");
    ShiftWindow28(desc);
    ShiftToken28(desc);
    ShiftLay28(desc, Tokens(desc, 37), out);
    ShiftWindow37(desc);
    ShiftToken37(desc);
    ShiftLay37(desc, Tokens(desc, 40), o1);
    ShiftWindow40(desc);
    ShiftToken40(desc);
    ShiftLay40(desc, Tokens(desc, 41), o1);
    ShiftWindow41(desc);
    ShiftToken41(desc);
    ShiftLay41(desc, Tokens(desc, 42), o2);
  }

  /** "\>0" and a newline put the last row back at 10. */
  lemma ShiftTail(desc: string, out: string)
    requires desc == ShiftDesc
    ensures Flow(desc, Tokens(desc, 42), ShiftFrame, Pen(out, 15, true, 4))
         == out + ("\n" + "          ") + "to" + " 0"
  {
    var o1 := out + ("\n" + "          ");
    ShiftWindow42(desc);
    ShiftToken42(desc);
    ShiftLay42(desc, Tokens(desc, 45), out);
    ShiftWindow45(desc);
    ShiftToken45(desc);
    ShiftLay45(desc, Tokens(desc, 46), out);
    ShiftWindow46(desc);
    ShiftToken46(desc);
    ShiftLay46(desc, Tokens(desc, 48), o1);
    ShiftWindow48(desc);
    ShiftToken48(desc);
    assert Tokens(desc, 48) == [Scan("0", -1, Some(50)), Scan([], -1, None)];
    ShiftLay48(desc, o1 + "to");
  }

  /** The indented pieces, regrouped into the rows the test writes. */
  lemma ShiftRows()
    ensures "          " + "1234567890" + ("\n" + "            regular") + ("\n" + "            text")
              + ("\n" + "          extension") + ("\n" + "              ") + "a" + ("\n" + "          ") + "to" + " 0"
         == "          1234567890\n" + "            regular\n" + "            text\n" + "          extension\n"
              + "              a\n" + "          to 0"
  {
    var a := "          " + "1234567890" + ("\n" + "            regular") + ("\n" + "            text");
    assert a == "          1234567890\n" + "            regular\n" + "            text";
    var b := ("\n" + "          extension") + ("\n" + "              ") + "a";
    assert b == "\n" + "          extension\n" + "              a";
    var c := ("\n" + "          ") + "to" + " 0";
    assert c == "\n" + "          to 0";
    assert a + b + c == "          " + "1234567890" + ("\n" + "            regular") + ("\n" + "            text")
              + ("\n" + "          extension") + ("\n" + "              ") + "a" + ("\n" + "          ") + "to" + " 0";
  }

  /**
   * The indentation test without a name: "\>2" indents the rows after it by 2,
   * "\>" and "\>0" bring them back, "\>4" indents the row after the newline by 4.
   */
  lemma ShiftedText(desc: string)
    requires desc == ShiftDesc
    ensures Help(1024, 10, 0, 20, None, '\0', desc)
         == "          1234567890\n" + "            regular\n" + "            text\n" + "          extension\n"
              + "              a\n" + "          to 0"
  {
    var o3 := "          " + "1234567890" + ("\n" + "            regular") + ("\n" + "            text");
    var o6 := o3 + ("\n" + "          extension") + ("\n" + "              ") + "a";
    assert Spaces(10) == "          ";
    assert Head(20, 10, 0, None, '\0') == (ShiftFrame, Pen("          ", 10, false, 0));
    ShiftFront(desc, "          ");
    ShiftBack(desc, o3);
    ShiftTail(desc, o6);
    ShiftRows();
    HelpWhole(1024, 10, 0, 20, None, '\0', desc);
  }
}
