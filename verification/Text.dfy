/** The few string operations the stores rely on: white-space clean-up and case
    folding.  Characters are folded one by one over ASCII. */
module Text {

  datatype Option<+T> = None | Some(value: T)

  predicate IsSpace(c: char) {
    c == ' ' || c == '\t' || c == '\n' || c == '\r'
  }

  function TrimLeft(s: string): string {
    if s != "" && IsSpace(s[0]) then TrimLeft(s[1..]) else s
  }

  function TrimRight(s: string): string {
    if s != "" && IsSpace(s[|s| - 1]) then TrimRight(s[..|s| - 1]) else s
  }

  function Trim(s: string): string {
    TrimRight(TrimLeft(s))
  }

  /** Every run of white space becomes one blank. */
  function Squeeze(s: string): string {
    if s == "" then ""
    else if !IsSpace(s[0]) then [s[0]] + Squeeze(s[1..])
    else if |s| > 1 && IsSpace(s[1]) then Squeeze(s[1..])
    else " " + Squeeze(s[1..])
  }

  /** strings.Join(strings.Fields(s), " "): also the import parser's cleanText. */
  function Clean(s: string): string {
    Trim(Squeeze(s))
  }

  function LowerChar(c: char): char {
    if 'A' <= c <= 'Z' then (c as int + 32) as char else c
  }

  function Lower(s: string): (r: string)
    ensures |r| == |s|
  {
    if s == "" then "" else [LowerChar(s[0])] + Lower(s[1..])
  }

  /** The key under which every store looks a CN up: cleaned and case-folded. */
  function FoldCN(s: string): string {
    Lower(Clean(s))
  }

  // ---------- What the clean-up amounts to ----------

  /** The characters up to the first white space. */
  function FirstWord(s: string): (w: string)
    ensures |w| <= |s| && s[..|w|] == w && (|w| < |s| ==> IsSpace(s[|w|]))
    ensures s != "" && !IsSpace(s[0]) ==> w != ""
    ensures forall c :: c in w ==> !IsSpace(c)
  {
    if s == "" || IsSpace(s[0]) then "" else [s[0]] + FirstWord(s[1..])
  }

  /** The words of a text: its longest stretches without white space, in order. */
  function Fields(s: string): (ws: seq<string>)
    ensures forall w :: w in ws ==> w != "" && !IsSpace(w[0])
    decreases |s|
  {
    if s == "" then []
    else if IsSpace(s[0]) then Fields(s[1..])
    else [FirstWord(s)] + Fields(s[|FirstWord(s)|..])
  }

  function Join(ws: seq<string>): string {
    if ws == [] then "" else if |ws| == 1 then ws[0] else ws[0] + " " + Join(ws[1..])
  }

  lemma {:induction false} SqueezeTrimmed(s: string)
    ensures TrimLeft(Squeeze(s)) == Squeeze(TrimLeft(s))
    ensures Fields(TrimLeft(s)) == Fields(s) && |TrimLeft(s)| <= |s|
    ensures TrimLeft(s) != "" ==> !IsSpace(TrimLeft(s)[0]) && Squeeze(TrimLeft(s)) != ""
    ensures s != "" && IsSpace(s[0]) ==> Squeeze(s) == " " + Squeeze(TrimLeft(s))
  {
    if s != "" && IsSpace(s[0]) {
      SqueezeTrimmed(s[1..]);
      assert (" " + Squeeze(s[1..]))[1..] == Squeeze(s[1..]);
    }
  }

  lemma {:induction false} SqueezeWord(s: string)
    ensures Squeeze(s) == FirstWord(s) + Squeeze(s[|FirstWord(s)|..])
  {
    hide IsSpace;
    if s != "" && !IsSpace(s[0]) {
      var w := FirstWord(s[1..]);
      SqueezeWord(s[1..]);
      assert FirstWord(s) == [s[0]] + w;
      assert s[1..][|w|..] == s[|w| + 1..];
      assert Squeeze(s) == [s[0]] + (w + Squeeze(s[|w| + 1..]));
      assert [s[0]] + (w + Squeeze(s[|w| + 1..])) == ([s[0]] + w) + Squeeze(s[|w| + 1..]);
    } else {
      assert FirstWord(s) == "" && s[0..] == s;
    }
  }

  lemma {:induction false} TrimRightBehind(a: string, b: string)
    requires TrimRight(b) != ""
    ensures TrimRight(a + b) == a + TrimRight(b)
  {
    assert (a + b)[|a + b| - 1] == b[|b| - 1];
    if IsSpace(b[|b| - 1]) {
      assert (a + b)[..|a + b| - 1] == a + b[..|b| - 1];
      TrimRightBehind(a, b[..|b| - 1]);
    }
  }

  lemma WordTrimmed(w: string)
    requires w != "" && !IsSpace(w[|w| - 1])
    ensures TrimRight(w) == w && TrimRight(w + " ") == w
  {
    assert (w + " ")[..|w|] == w;
  }

  lemma FieldsStep(s: string)
    requires s != "" && !IsSpace(s[0])
    ensures var (w, rest) := (FirstWord(s), Fields(s[|FirstWord(s)|..]));
            Join(Fields(s)) == if rest == [] then w else w + " " + Join(rest)
  {
    var (w, rest) := (FirstWord(s), Fields(s[|FirstWord(s)|..]));
    assert ([w] + rest)[1..] == rest;
  }

  lemma SomeField(s: string)
    requires s != "" && !IsSpace(s[0])
    ensures Fields(s) != []
  {}

  lemma NoFields()
    ensures TrimRight(Squeeze("")) == Join(Fields(""))
  {}

  lemma EmptyTexts()
    ensures Squeeze("") == "" && Fields("") == [] && TrimLeft("") == ""
  {}

  lemma {:induction false} JoinTrimmed(s: string)
    requires s != "" ==> !IsSpace(s[0])
    ensures TrimRight(Squeeze(s)) == Join(Fields(s)) && (s != "" ==> Join(Fields(s)) != "")
    decreases |s|
  {
    hide Fields, Join, Squeeze, TrimRight, TrimLeft, IsSpace, FirstWord;
    if s == "" {
      NoFields();
    } else {
      var w := FirstWord(s);
      var rest := s[|w|..];
      var more := TrimLeft(rest);
      SqueezeWord(s);
      SqueezeTrimmed(rest);
      FieldsStep(s);
      JoinTrimmed(more);
      WordTrimmed(w);
      assert Squeeze(s) == if rest == "" then w + Squeeze("") else (w + " ") + Squeeze(more);
      if more != "" {
        SomeField(more);
        TrimRightBehind(w + " ", Squeeze(more));
      } else {
        EmptyTexts();
        assert Squeeze(s) == if rest == "" then w else w + " ";
      }
    }
  }

  /** The clean-up leaves the words, one blank between any two of them. */
  lemma CleanIsJoin(s: string)
    ensures Clean(s) == Join(Fields(s))
  {
    SqueezeTrimmed(s);
    JoinTrimmed(TrimLeft(s));
  }

  lemma {:induction false} LowerAt(s: string)
    ensures forall i :: 0 <= i < |s| ==> Lower(s)[i] == LowerChar(s[i])
  {
    if s != "" {
      LowerAt(s[1..]);
      assert forall i :: 0 < i < |s| ==> Lower(s)[i] == Lower(s[1..])[i - 1] && s[i] == s[1..][i - 1];
    }
  }

  /** The same words, but for the case of their letters. */
  predicate SameWords(a: string, b: string) {
    var (x, y) := (Join(Fields(a)), Join(Fields(b)));
    |x| == |y| && forall i :: 0 <= i < |x| ==> LowerChar(x[i]) == LowerChar(y[i])
  }

  /** Two CNs are looked up under one key exactly when they are the same words. */
  lemma FoldCNSame(a: string, b: string)
    ensures FoldCN(a) == FoldCN(b) <==> SameWords(a, b)
  {
    hide Lower, LowerChar;
    CleanIsJoin(a);
    CleanIsJoin(b);
    LowerAt(Clean(a));
    LowerAt(Clean(b));
  }
}
