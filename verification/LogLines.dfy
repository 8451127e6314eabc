/**
 How a line of a log is read. The parser looks for its markers anywhere in the line, so what a program
 prints can read as a line of the runtime's own; but never in the name of an address.
 */
module LogLines {
  import opened Prelude

  const PROGRAM: string := "Program "
  const INVOKE: string := " invoke ["
  const SUCCESS: string := " success"
  const FAILED: string := " failed:"
  const PRINTED: string := "log: "

  predicate OccursAt(s: string, sub: string, i: nat) {
    i + |sub| <= |s| && s[i..i + |sub|] == sub
  }

  // The first place, from `from` on, where `sub` occurs.
  function IndexOf(s: string, sub: string, from: nat): (r: Option<nat>)
    ensures r.Some? ==> from <= r.value && OccursAt(s, sub, r.value) && forall j :: from <= j < r.value ==> !OccursAt(s, sub, j)
    ensures r.None? ==> forall j :: from <= j ==> !OccursAt(s, sub, j)
    decreases |s| - from
  {
    if from + |sub| > |s| then None
    else if OccursAt(s, sub, from) then Some(from)
    else if from == |s| then None
    else IndexOf(s, sub, from + 1)
  }

  datatype Invocation = Invocation(program: string, depth: int)

  // `number` reads a text as a number, where it is one.
  function ParseInvoke(log: string, number: string -> Option<int>): Option<Invocation> {
    match IndexOf(log, PROGRAM, 0)
    case None => None
    case Some(start) =>
      match IndexOf(log, INVOKE, start + |PROGRAM|)
      case None => None
      case Some(end) =>
        match IndexOf(log, "]", end + |INVOKE|)
        case None => None
        case Some(close) =>
          var program, depth := log[start + |PROGRAM|..end], number(log[end + |INVOKE|..close]);
          if program == "" || depth.None? || depth.value <= 0 then None else Some(Invocation(program, depth.value))
  }

  function ParseComplete(log: string): Option<string> {
    match IndexOf(log, PROGRAM, 0)
    case None => None
    case Some(start) =>
      match IndexOf(log, SUCCESS, start + |PROGRAM|)
      case Some(end) => Some(log[start + |PROGRAM|..end])
      case None =>
        match IndexOf(log, FAILED, start + |PROGRAM|)
        case Some(end) => Some(log[start + |PROGRAM|..end])
        case None => None
  }

  // An address has neither spaces nor colons.
  predicate IsAddress(p: string) {
    p != "" && forall i :: 0 <= i < |p| ==> p[i] != ' ' && p[i] != ':'
  }

  lemma StartsHere(s: string, sub: string, rest: string)
    requires s == sub + rest
    ensures IndexOf(s, sub, 0) == Some(0)
  {
    assert OccursAt(s, sub, 0);
  }

  // The first two letters of a marker stand here.
  predicate Begins(s: string, marker: string, i: nat)
    requires marker != ""
  {
    i < |s| && s[i] == marker[0] && (1 < |marker| ==> i + 1 < |s| && s[i + 1] == marker[1])
  }

  lemma FirstLetters(s: string, marker: string, i: nat)
    requires marker != "" && OccursAt(s, marker, i)
    ensures Begins(s, marker, i)
  {
    assert s[i..i + |marker|][0] == s[i];
    if 1 < |marker| {
      assert s[i..i + |marker|][1] == s[i + 1];
    }
  }

  lemma FoundAt(s: string, marker: string, from: nat, i: nat)
    requires marker != "" && from <= i && OccursAt(s, marker, i)
    requires forall j :: from <= j < i ==> !Begins(s, marker, j)
    ensures IndexOf(s, marker, from) == Some(i)
  {
    var found := IndexOf(s, marker, from);
    assert found.Some?;
    FirstLetters(s, marker, found.value);
  }

  // Texts cut before two markers that differ are not the same.
  lemma CutsDiffer(s: string, a: string, b: string, from: nat, i: nat, j: nat)
    requires |a| >= 2 && |b| >= 2 && a[1] != b[1] && OccursAt(s, a, i) && OccursAt(s, b, j) && from <= i && from <= j
    ensures s[from..i] != s[from..j]
  {
    FirstLetters(s, a, i);
    FirstLetters(s, b, j);
    assert |s[from..i]| == i - from && |s[from..j]| == j - from;
  }

  lemma Markers()
    ensures |PROGRAM| == 8 && |INVOKE| == 9 && |SUCCESS| == 8 && |FAILED| == 8 && |PRINTED| == 5
    ensures INVOKE[0] == ' ' && SUCCESS[0] == ' ' && FAILED[0] == ' ' && INVOKE[1] == 'i' && SUCCESS[1] == 's' && FAILED[1] == 'f'
    ensures PRINTED[0] == 'l' && PRINTED[1] == 'o' && PRINTED[2] == 'g' && PRINTED[3] == ':' && PRINTED[4] == ' '
  {
  }

  // A marker that begins with a space is not found inside a word without spaces.
  lemma FoundAfterWord(s: string, before: string, word: string, marker: string, after: string)
    requires s == before + word + marker + after && marker != "" && marker[0] == ' '
    requires forall i :: 0 <= i < |word| ==> word[i] != ' '
    ensures IndexOf(s, marker, |before|) == Some(|before| + |word|)
  {
    var end := |before| + |word|;
    assert s[end..end + |marker|] == marker;
    forall j | |before| <= j < end
      ensures !Begins(s, marker, j)
    {
      assert s[j] == word[j - |before|];
    }
    FoundAt(s, marker, |before|, end);
  }

  // What is cut out between the markers.
  lemma CutOut(s: string, p: string, marker: string, digits: string)
    requires s == PROGRAM + p + marker + digits + "]"
    ensures var end := |PROGRAM| + |p|;
            s[|PROGRAM|..end] == p && end + |marker| + |digits| < |s| && s[end + |marker|..end + |marker| + |digits|] == digits
  {
    var rest := digits + "]";
    assert s == PROGRAM + (p + (marker + rest));
    assert s == (PROGRAM + p + marker) + rest;
    assert rest[..|digits|] == digits;
  }

  // Reading is cutting at the three markers.
  lemma ReadsCuts(s: string, end: nat, close: nat, number: string -> Option<int>)
    requires IndexOf(s, PROGRAM, 0) == Some(0) && IndexOf(s, INVOKE, |PROGRAM|) == Some(end)
    requires IndexOf(s, "]", end + |INVOKE|) == Some(close)
    ensures var program, depth := s[|PROGRAM|..end], number(s[end + |INVOKE|..close]);
            ParseInvoke(s, number) == if program == "" || depth.None? || depth.value <= 0 then None else Some(Invocation(program, depth.value))
  {
  }

  // A line with an invoke marker behind `p`, and none before.
  lemma InvokeIsCutOut(s: string, p: string, digits: string, number: string -> Option<int>)
    requires s == PROGRAM + p + INVOKE + digits + "]" && p != "" && IndexOf(s, INVOKE, |PROGRAM|) == Some(|PROGRAM| + |p|)
    requires (forall i :: 0 <= i < |digits| ==> digits[i] != ']') && number(digits).Some? && number(digits).value > 0
    ensures ParseInvoke(s, number) == Some(Invocation(p, number(digits).value))
  {
    StartsLine(s, PROGRAM, p, INVOKE, digits);
    BracketCloses(s, PROGRAM + p + INVOKE, digits);
    CutOut(s, p, INVOKE, digits);
    Markers();
    ReadsCuts(s, 8 + |p|, 8 + |p| + 9 + |digits|, number);
  }

  lemma StartsLine(s: string, sub: string, a: string, b: string, c: string)
    requires s == sub + a + b + c + "]"
    ensures IndexOf(s, sub, 0) == Some(0)
  {
    assert s == sub + (a + b + c + "]");
    StartsHere(s, sub, a + b + c + "]");
  }

  /** The runtime's own invoke line is read as it is meant. */
  lemma InvokeIsRead(p: string, digits: string, number: string -> Option<int>)
    requires IsAddress(p) && forall i :: 0 <= i < |digits| ==> digits[i] != ']'
    requires number(digits).Some? && number(digits).value > 0
    ensures ParseInvoke(PROGRAM + p + INVOKE + digits + "]", number) == Some(Invocation(p, number(digits).value))
  {
    Markers();
    assert PROGRAM + p + INVOKE + digits + "]" == PROGRAM + p + INVOKE + (digits + "]");
    FoundAfterWord(PROGRAM + p + INVOKE + digits + "]", PROGRAM, p, INVOKE, digits + "]");
    InvokeIsCutOut(PROGRAM + p + INVOKE + digits + "]", p, digits, number);
  }

  lemma BracketCloses(s: string, before: string, digits: string)
    requires s == before + digits + "]" && forall i :: 0 <= i < |digits| ==> digits[i] != ']'
    ensures IndexOf(s, "]", |before|) == Some(|before| + |digits|)
  {
    var close := |before| + |digits|;
    assert s[close..close + 1] == "]";
    forall j | |before| <= j < close
      ensures !Begins(s, "]", j)
    {
      assert s[j] == digits[j - |before|];
    }
    FoundAt(s, "]", |before|, close);
  }

  /** And so is its line at the end of a call that succeeded. */
  lemma SuccessIsRead(p: string)
    requires IsAddress(p)
    ensures ParseComplete(PROGRAM + p + SUCCESS) == Some(p)
  {
    var s := PROGRAM + p + SUCCESS;
    assert s == PROGRAM + (p + SUCCESS) && s == PROGRAM + p + SUCCESS + "";
    StartsHere(s, PROGRAM, p + SUCCESS);
    FoundAfterWord(s, PROGRAM, p, SUCCESS, "");
    assert s[|PROGRAM|..|PROGRAM| + |p|] == p;
  }

  // A text cut out of a printed line begins as the line does.
  lemma CutBegins(m: string, end: nat)
    requires |PROGRAM| <= end <= |PROGRAM + PRINTED + m|
    requires OccursAt(PROGRAM + PRINTED + m, INVOKE, end) || OccursAt(PROGRAM + PRINTED + m, SUCCESS, end) || OccursAt(PROGRAM + PRINTED + m, FAILED, end)
    ensures !IsAddress((PROGRAM + PRINTED + m)[|PROGRAM|..end])
  {
    var s := PROGRAM + PRINTED + m;
    var text := s[|PROGRAM|..end];
    assert s[8] == 'l' && s[9] == 'o' && s[10] == 'g' && s[11] == ':' && s[12] == ' ';
    assert s[end] == ' ';
    if end > 11 {
      assert text[3] == ':';
    }
  }

  /** Whatever a program prints, what is read out of it as a program's name is no address. */
  lemma PrintedIsNoAddress(m: string, number: string -> Option<int>)
    ensures var s := PROGRAM + PRINTED + m;
            && (ParseInvoke(s, number).Some? ==> !IsAddress(ParseInvoke(s, number).value.program))
            && (ParseComplete(s).Some? ==> !IsAddress(ParseComplete(s).value))
  {
    var s := PROGRAM + PRINTED + m;
    assert s == PROGRAM + (PRINTED + m);
    StartsHere(s, PROGRAM, PRINTED + m);
    if ParseInvoke(s, number).Some? {
      CutBegins(m, IndexOf(s, INVOKE, |PROGRAM|).value);
    }
    if ParseComplete(s).Some? {
      if IndexOf(s, SUCCESS, |PROGRAM|).Some? {
        CutBegins(m, IndexOf(s, SUCCESS, |PROGRAM|).value);
      } else {
        CutBegins(m, IndexOf(s, FAILED, |PROGRAM|).value);
      }
    }
  }

  /** A line is never read as the invoke and as the end of the same name. */
  lemma NamesDiffer(log: string, number: string -> Option<int>)
    requires ParseInvoke(log, number).Some? && ParseComplete(log).Some?
    ensures ParseInvoke(log, number).value.program != ParseComplete(log).value
  {
    Markers();
    var from := IndexOf(log, PROGRAM, 0).value + |PROGRAM|;
    var invoke, success, failed := IndexOf(log, INVOKE, from), IndexOf(log, SUCCESS, from), IndexOf(log, FAILED, from);
    if success.Some? {
      CutsDiffer(log, INVOKE, SUCCESS, from, invoke.value, success.value);
    } else {
      CutsDiffer(log, INVOKE, FAILED, from, invoke.value, failed.value);
    }
  }

  // A message of one word before " invoke [" is read as an invoke at the depth it claims.
  lemma MisreadLine(word: string, digits: string, number: string -> Option<int>)
    requires word != "" && word[0] != 'i' && forall i :: 0 <= i < |word| ==> word[i] != ' '
    requires (forall i :: 0 <= i < |digits| ==> digits[i] != ']') && number(digits).Some? && number(digits).value > 0
    ensures PROGRAM + (PRINTED + word) + INVOKE + digits + "]" == PROGRAM + PRINTED + (word + INVOKE + digits + "]")
    ensures ParseInvoke(PROGRAM + (PRINTED + word) + INVOKE + digits + "]", number) ==
            Some(Invocation(PRINTED + word, number(digits).value))
  {
    var text := PRINTED + word;
    Markers();
    RegroupText(PROGRAM, PRINTED, word, INVOKE, digits + "]");
    TextIsBeforeMarker(PROGRAM + text + INVOKE + digits + "]", word, digits + "]");
    InvokeIsCutOut(PROGRAM + text + INVOKE + digits + "]", text, digits, number);
  }

  lemma RegroupText(a: string, b: string, c: string, d: string, e: string)
    ensures a + (b + c) + d + e == a + b + (c + d + e)
  {
  }

  lemma TextIsBeforeMarker(s: string, word: string, rest: string)
    requires s == PROGRAM + (PRINTED + word) + INVOKE + rest
    requires word != "" && word[0] != 'i' && forall i :: 0 <= i < |word| ==> word[i] != ' '
    ensures IndexOf(s, INVOKE, |PROGRAM|) == Some(|PROGRAM| + |PRINTED + word|)
  {
    Markers();
    var end := |PROGRAM| + |PRINTED + word|;
    var text := PRINTED + word;
    forall j | 8 <= j < end
      ensures s[j] == text[j - 8]
    {
    }
    assert s[end..end + |INVOKE|] == INVOKE;
    assert text[4] == ' ' && text[5] == word[0];
    forall j | 8 <= j < end
      ensures !Begins(s, INVOKE, j)
    {
      assert s[j] == text[j - 8];
      if j == 12 {
        assert s[13] == text[5];
      } else if j < 12 {
        assert text[j - 8] == PRINTED[j - 8];
      } else {
        assert text[j - 8] == word[j - 13];
      }
    }
    FoundAt(s, INVOKE, 8, end);
  }
}
