/** The line classifier of `parse_dataset_file`, without the file read: each
    line is stripped, blank lines are skipped, all-digit lines become score
    increases, and anything else must be a symbol token. */
module Dataset {
  import opened Wrappers
  import opened Actions

  /** The ASCII characters `str.strip()` removes: space, tab, line feed,
      vertical tab, form feed, carriage return and the four separators
      0x1c-0x1f. */
  predicate IsSpace(c: char)
  {
    var n := c as int;
    n == 32 || 9 <= n <= 13 || 28 <= n <= 31
  }

  /** Drops leading whitespace: the result is the suffix of `s` that starts at
      its first non-space character. */
  function TrimLeft(s: string): (r: string)
    ensures |r| <= |s| && r == s[|s| - |r|..]
    ensures forall k :: 0 <= k < |s| - |r| ==> IsSpace(s[k])
    ensures r == [] || !IsSpace(r[0])
  {
    if |s| > 0 && IsSpace(s[0]) then TrimLeft(s[1..]) else s
  }

  /** Drops trailing whitespace: the result is the prefix of `s` that ends at
      its last non-space character. */
  function TrimRight(s: string): (r: string)
    ensures |r| <= |s| && r == s[..|r|]
    ensures forall k :: |r| <= k < |s| ==> IsSpace(s[k])
    ensures r == [] || !IsSpace(r[|r| - 1])
  {
    if |s| > 0 && IsSpace(s[|s| - 1]) then TrimRight(s[..|s| - 1]) else s
  }

  /** `str.strip()`. */
  function Strip(s: string): string
  {
    TrimRight(TrimLeft(s))
  }

  /** Stripping an already stripped line changes nothing, which is why the
      second `.strip()` before the symbol lookup is a no-op. */
  lemma StripIdempotent(s: string)
    ensures Strip(Strip(s)) == Strip(s)
  {
    var t := Strip(s);
    if t != [] {
      assert t[0] == TrimLeft(s)[0];
      assert !IsSpace(t[0]);
    }
    assert TrimLeft(t) == t;
    assert TrimRight(t) == t;
  }

  /** A line without surrounding whitespace is its own stripped form. */
  lemma StripUnpadded(s: string)
    requires s != [] ==> !IsSpace(s[0]) && !IsSpace(s[|s| - 1])
    ensures Strip(s) == s
  {
    assert TrimLeft(s) == s;
  }

  predicate IsDigit(c: char)
  {
    '0' <= c <= '9'
  }

  /** `str.isdigit()` on ASCII text: non-empty and made of digits only. */
  predicate IsDigits(s: string)
  {
    |s| > 0 && forall i :: 0 <= i < |s| ==> IsDigit(s[i])
  }

  /** `int(s)` on a string of decimal digits. */
  function DigitsValue(s: string): nat
    requires forall i :: 0 <= i < |s| ==> IsDigit(s[i])
  {
    if |s| == 0 then 0
    else DigitsValue(s[..|s| - 1]) * 10 + DigitValue(s[|s| - 1])
  }

  function DigitValue(c: char): (d: nat)
    requires IsDigit(c)
    ensures d < 10
  {
    c as int - '0' as int
  }

  /** The decimal rendering of a natural number, without leading zeros. */
  function Decimal(n: nat): (s: string)
    ensures IsDigits(s)
    ensures |s| > 1 ==> s[0] != '0'
  {
    var d := ('0' as int + n % 10) as char;
    if n < 10 then [d] else Decimal(n / 10) + [d]
  }

  /** `int` undoes the decimal rendering. */
  lemma {:induction false} DecimalRoundTrip(n: nat)
    ensures DigitsValue(Decimal(n)) == n
  {
    var s := Decimal(n);
    if n >= 10 {
      assert s[..|s| - 1] == Decimal(n / 10);
      DecimalRoundTrip(n / 10);
    }
  }

  /** How one line contributes to the dataset. */
  datatype LineKind = Blank | Parsed(action: Action) | Unknown(text: string)

  /** Classifies one line. */
  function ParseLine(line: string): (k: LineKind)
    ensures k == Blank <==> Strip(line) == ""
    ensures k.Unknown? ==> k.text == Strip(line) && k.text != ""
    ensures k.Parsed? ==> k.action.value >= 0
    ensures k.Parsed? && k.action.symbol != IncreaseScore ==> k.action.value == 0
  {
    var t := Strip(line);
    if t == "" then Blank
    else if IsDigits(t) then Parsed(Action(IncreaseScore, DigitsValue(t)))
    else match SymbolOfToken(t)
      case Some(s) => Parsed(Symbolic(s))
      case None => Unknown(t)
  }

  /** An all-digit line is a score increase by its decimal value. */
  lemma DigitLine(line: string)
    requires IsDigits(Strip(line))
    ensures ParseLine(line) == Parsed(Action(IncreaseScore, DigitsValue(Strip(line))))
  {
  }

  /** Every natural number written on a line, with any padding, reads back
      as an increase by that number. */
  lemma {:induction false} NumberLine(n: nat, pad: string, pad': string)
    requires forall i :: 0 <= i < |pad| ==> IsSpace(pad[i])
    requires forall i :: 0 <= i < |pad'| ==> IsSpace(pad'[i])
    ensures ParseLine(pad + Decimal(n) + pad') == Parsed(Action(IncreaseScore, n))
  {
    var d := Decimal(n);
    var line := pad + d + pad';
    PaddedStrip(pad, d, pad');
    DecimalRoundTrip(n);
  }

  /** Leading whitespace in front of a word is dropped by `TrimLeft`. */
  lemma {:induction false} TrimLeftPadding(pad: string, s: string)
    requires forall i :: 0 <= i < |pad| ==> IsSpace(pad[i])
    requires s == [] || !IsSpace(s[0])
    ensures TrimLeft(pad + s) == s
  {
    if pad == [] {
      assert pad + s == s;
    } else {
      assert (pad + s)[1..] == pad[1..] + s;
      TrimLeftPadding(pad[1..], s);
    }
  }

  /** Trailing whitespace after a word is dropped by `TrimRight`. */
  lemma {:induction false} TrimRightPadding(s: string, pad: string)
    requires forall i :: 0 <= i < |pad| ==> IsSpace(pad[i])
    requires s == [] || !IsSpace(s[|s| - 1])
    ensures TrimRight(s + pad) == s
  {
    if pad == [] {
      assert s + pad == s;
    } else {
      var p := pad[..|pad| - 1];
      assert (s + pad)[..|s + pad| - 1] == s + p;
      TrimRightPadding(s, p);
    }
  }

  /** Stripping removes exactly the whitespace padding around a word that
      starts and ends with a non-space character. */
  lemma PaddedStrip(pad: string, w: string, pad': string)
    requires forall i :: 0 <= i < |pad| ==> IsSpace(pad[i])
    requires forall i :: 0 <= i < |pad'| ==> IsSpace(pad'[i])
    requires w != [] && !IsSpace(w[0]) && !IsSpace(w[|w| - 1])
    ensures Strip(pad + w + pad') == w
  {
    assert pad + w + pad' == pad + (w + pad');
    TrimLeftPadding(pad, w + pad');
    TrimRightPadding(w, pad');
  }

  /** A symbol token on a line of its own parses to that symbol with value 0.
      This includes the word `number`, the token of the increase-score
      symbol, which therefore parses as an increase of 0. */
  lemma SymbolLine(s: ActionSymbol)
    ensures ParseLine(Token(s)) == Parsed(Action(s, 0))
  {
    var t := Token(s);
    assert t[0] == '-' || t[0] == 'n';
    assert t[|t| - 1] == '-' || t[|t| - 1] == 'r';
    StripUnpadded(t);
    assert !IsDigit(t[0]);
  }

  /** A line starting with `#` is not a comment: it is an unknown symbol. */
  lemma HashLine(line: string)
    requires Strip(line) != "" && Strip(line)[0] == '#'
    ensures ParseLine(line) == Unknown(Strip(line))
  {
    var t := Strip(line);
    assert !IsDigits(t) by {
      assert !IsDigit(t[0]);
    }
    assert SymbolOfToken(t) == None by {
      assert forall s :: Token(s)[0] != '#';
    }
  }

  /** The only error of the classifier: a line is unknown exactly when its
      stripped text is non-empty, not all digits, and not the token of any
      symbol. */
  lemma UnknownLine(line: string)
    ensures ParseLine(line).Unknown? <==>
      && Strip(line) != ""
      && !IsDigits(Strip(line))
      && forall s :: Token(s) != Strip(line)
  {
  }

  /** A line and its stripped form are classified alike. */
  lemma StripInvariantLine(line: string)
    ensures ParseLine(Strip(line)) == ParseLine(line)
  {
    StripIdempotent(line);
  }

  /** The error `parse_dataset_file` raises: the 0-based index of the first
      offending line and its stripped text. */
  datatype ParseError = UnknownSymbol(lineIndex: nat, text: string)

  /** Every line classified on its own by `classify`, in line order. The
      loop's structure does not depend on how a single line is classified, so
      the lemmas about that structure are stated for any classifier. */
  function ClassifyWith(classify: string -> LineKind, lines: seq<string>): (ks: seq<LineKind>)
    ensures |ks| == |lines|
  {
    seq(|lines|, j requires 0 <= j < |lines| => classify(lines[j]))
  }

  /** The classification of every line by `ParseLine`. */
  function Classify(lines: seq<string>): (ks: seq<LineKind>)
    ensures |ks| == |lines|
  {
    ClassifyWith(ParseLine, lines)
  }

  /** The loop of `parse_dataset_file` over classified lines: blank lines add
      nothing, parsed lines append their action, and the first unknown line
      stops the loop with its index. */
  function Collect(ks: seq<LineKind>): (r: Result<seq<Action>, ParseError>)
    ensures r.Success? ==> |r.value| <= |ks|
    ensures r.Failure? ==> r.error.lineIndex < |ks|
  {
    if |ks| == 0 then Success([])
    else
      var last := |ks| - 1;
      match Collect(ks[..last])
      case Failure(e) => Failure(e)
      case Success(acts) =>
        match ks[last]
        case Blank => Success(acts)
        case Parsed(a) => Success(acts + [a])
        case Unknown(t) => Failure(UnknownSymbol(last, t))
  }

  /** `parse_dataset_file` over the lines of a file. */
  function ParseLines(lines: seq<string>): (r: Result<seq<Action>, ParseError>)
    ensures r.Success? ==> |r.value| <= |lines|
    ensures r.Failure? ==> r.error.lineIndex < |lines|
  {
    Collect(Classify(lines))
  }

  /** Collecting succeeds exactly when no line is unknown; otherwise it
      reports the first unknown line, and nothing after it matters. */
  lemma {:induction false} CollectOutcome(ks: seq<LineKind>)
    ensures Collect(ks).Success? <==> forall j :: 0 <= j < |ks| ==> !ks[j].Unknown?
    ensures Collect(ks).Failure? ==>
      var e := Collect(ks).error;
      && ks[e.lineIndex] == Unknown(e.text)
      && forall j :: 0 <= j < e.lineIndex ==> !ks[j].Unknown?
  {
    if |ks| > 0 {
      var last := |ks| - 1;
      var init := ks[..last];
      CollectOutcome(init);
      assert forall j :: 0 <= j < last ==> init[j] == ks[j];
    }
  }

  /** Parsing succeeds exactly when no line is an unknown symbol; otherwise
      it reports the first such line, with its 0-based index and stripped
      text, and no later line is looked at. */
  lemma ParseLinesOutcome(lines: seq<string>)
    ensures ParseLines(lines).Success? <==> forall j :: 0 <= j < |lines| ==> !ParseLine(lines[j]).Unknown?
    ensures ParseLines(lines).Success? ==> |ParseLines(lines).value| <= |lines|
    ensures ParseLines(lines).Failure? ==>
      var e := ParseLines(lines).error;
      && e.lineIndex < |lines|
      && ParseLine(lines[e.lineIndex]) == Unknown(e.text)
      && e.text == Strip(lines[e.lineIndex]) && e.text != ""
      && forall j :: 0 <= j < e.lineIndex ==> !ParseLine(lines[j]).Unknown?
  {
    var ks := Classify(lines);
    assert forall j :: 0 <= j < |lines| ==> ks[j] == ParseLine(lines[j]);
    CollectOutcome(ks);
    assert ParseLines(lines) == Collect(ks);
  }

  /** Collecting two runs of lines one after the other: a failure in the
      first run wins, otherwise the actions of both runs are concatenated in
      order and an error in the second run keeps its absolute index. */
  lemma {:induction false} CollectAppend(a: seq<LineKind>, b: seq<LineKind>)
    ensures Collect(a).Failure? ==> Collect(a + b) == Collect(a)
    ensures Collect(a).Success? && Collect(b).Success? ==>
      Collect(a + b) == Success(Collect(a).value + Collect(b).value)
    ensures Collect(a).Success? && Collect(b).Failure? ==>
      Collect(a + b) == Failure(UnknownSymbol(|a| + Collect(b).error.lineIndex, Collect(b).error.text))
    decreases |b|
  {
    if |b| == 0 {
      assert a + b == a;
      if Collect(a).Success? {
        assert Collect(a).value + [] == Collect(a).value;
      }
    } else {
      var last := |b| - 1;
      assert (a + b)[..|a + b| - 1] == a + b[..last];
      assert (a + b)[|a + b| - 1] == b[last];
      CollectAppend(a, b[..last]);
      if Collect(a).Success? && Collect(b[..last]).Success? {
        var x := Collect(a).value;
        var y := Collect(b[..last]).value;
        match b[last]
        case Blank =>
        case Parsed(act) =>
          assert x + (y + [act]) == (x + y) + [act];
        case Unknown(t) =>
      }
    }
  }

  /** Classifying two runs of lines one after the other. */
  lemma ClassifyWithAppend(classify: string -> LineKind, a: seq<string>, b: seq<string>)
    ensures ClassifyWith(classify, a + b) == ClassifyWith(classify, a) + ClassifyWith(classify, b)
  {
    forall j | 0 <= j < |a + b|
      ensures ClassifyWith(classify, a + b)[j] == (ClassifyWith(classify, a) + ClassifyWith(classify, b))[j]
    {
      if j < |a| {
        assert (a + b)[j] == a[j];
      } else {
        assert (a + b)[j] == b[j - |a|];
      }
    }
  }

  /** `CollectAppend` for the classification of two runs of lines, by any
      classifier. */
  lemma CollectWithAppend(classify: string -> LineKind, a: seq<string>, b: seq<string>)
    ensures var pa, pb, pab := Collect(ClassifyWith(classify, a)), Collect(ClassifyWith(classify, b)), Collect(ClassifyWith(classify, a + b));
      && (pa.Failure? ==> pab == pa)
      && (pa.Success? && pb.Success? ==> pab == Success(pa.value + pb.value))
      && (pa.Success? && pb.Failure? ==> pab == Failure(UnknownSymbol(|a| + pb.error.lineIndex, pb.error.text)))
  {
    ClassifyWithAppend(classify, a, b);
    CollectAppend(ClassifyWith(classify, a), ClassifyWith(classify, b));
  }

  /** Lines parse in order: the dataset of two concatenated line lists is
      the concatenation of their datasets, and an error in the second list
      is reported at its position in the whole. */
  lemma ParseLinesAppend(a: seq<string>, b: seq<string>)
    ensures ParseLines(a).Failure? ==> ParseLines(a + b) == ParseLines(a)
    ensures ParseLines(a).Success? && ParseLines(b).Success? ==>
      ParseLines(a + b) == Success(ParseLines(a).value + ParseLines(b).value)
    ensures ParseLines(a).Success? && ParseLines(b).Failure? ==>
      ParseLines(a + b) == Failure(UnknownSymbol(|a| + ParseLines(b).error.lineIndex, ParseLines(b).error.text))
  {
    CollectWithAppend(ParseLine, a, b);
  }

  /** One line on its own: a blank line gives no action, a parsed line gives
      exactly its action, an unknown one fails at index 0. */
  lemma ParseOneLine(line: string)
    ensures Strip(line) == "" ==> ParseLines([line]) == Success([])
    ensures ParseLine(line).Parsed? ==> ParseLines([line]) == Success([ParseLine(line).action])
    ensures ParseLine(line).Unknown? ==> ParseLines([line]) == Failure(UnknownSymbol(0, Strip(line)))
  {
    var k := ParseLine(line);
    assert Classify([line]) == [k];
    assert [k][..0] == [];
    assert Collect([]) == Success([]);
    assert ParseLines([line]) == Collect([k]);
    if k.Parsed? {
      assert [] + [k.action] == [k.action];
    }
  }

  /** Surrounding whitespace is irrelevant: stripping every line first does
      not change the outcome. */
  lemma ParseLinesStripInvariant(lines: seq<string>)
    ensures ParseLines(seq(|lines|, j requires 0 <= j < |lines| => Strip(lines[j]))) == ParseLines(lines)
  {
    var stripped := seq(|lines|, j requires 0 <= j < |lines| => Strip(lines[j]));
    forall j | 0 <= j < |lines|
      ensures ParseLine(stripped[j]) == ParseLine(lines[j])
    {
      StripInvariantLine(lines[j]);
    }
    assert Classify(stripped) == Classify(lines);
  }

  /** The error names the first unknown line, whatever comes after it. */
  lemma CollectFirstUnknown(ks: seq<LineKind>, i: nat)
    requires i < |ks| && ks[i].Unknown?
    requires forall j :: 0 <= j < i ==> !ks[j].Unknown?
    ensures Collect(ks) == Failure(UnknownSymbol(i, ks[i].text))
  {
    CollectOutcome(ks);
  }

  /** A `#` line is not skipped as a comment: after any lines without
      unknown symbols it makes the whole file fail at its own index, whatever
      follows it. */
  lemma CommentLineFails(before: seq<string>, comment: string, after: seq<string>)
    requires forall j :: 0 <= j < |before| ==> !ParseLine(before[j]).Unknown?
    requires Strip(comment) != "" && Strip(comment)[0] == '#'
    ensures ParseLines(before + [comment] + after) == Failure(UnknownSymbol(|before|, Strip(comment)))
  {
    var lines := before + [comment] + after;
    var ks := Classify(lines);
    var i := |before|;
    assert ks[i] == Unknown(Strip(comment)) by {
      assert lines[i] == comment;
      HashLine(comment);
    }
    assert forall j :: 0 <= j < i ==> !ks[j].Unknown? by {
      assert forall j :: 0 <= j < i ==> lines[j] == before[j];
    }
    CollectFirstUnknown(ks, i);
  }

  /** Collected actions come from parsed lines only. */
  lemma {:induction false} CollectFromParsed(ks: seq<LineKind>)
    requires forall j :: 0 <= j < |ks| ==> ks[j].Parsed? ==> WellFormed(ks[j].action)
    requires Collect(ks).Success?
    ensures forall i :: 0 <= i < |Collect(ks).value| ==> WellFormed(Collect(ks).value[i])
  {
    if |ks| > 0 {
      var init := ks[..|ks| - 1];
      assert forall j :: 0 <= j < |init| ==> init[j] == ks[j];
      CollectFromParsed(init);
    }
  }

  /** Every action of a parsed dataset is well formed: increases carry a
      non-negative value and every other symbol the default value 0. */
  lemma ParsedActionsWellFormed(lines: seq<string>)
    requires ParseLines(lines).Success?
    ensures forall i :: 0 <= i < |ParseLines(lines).value| ==> WellFormed(ParseLines(lines).value[i])
  {
    var ks := Classify(lines);
    assert forall j :: 0 <= j < |lines| ==> ks[j] == ParseLine(lines[j]);
    CollectFromParsed(ks);
    assert ParseLines(lines) == Collect(ks);
  }
}
