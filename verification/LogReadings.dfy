/**
 What a line reads as to the two loops: the runtime's own lines as they are meant, and some messages as
 if they were such lines. `name` numbers texts; how numbers are read and printed is given.
 */
module LogReadings {
  import opened Prelude
  import opened LogLines
  import opened LogStacks
  import opened LogMessages

  datatype Numbers = Numbers(read: string -> Option<int>, show: int -> string)

  // A depth is printed without spaces or brackets, and read back.
  predicate Printable(nums: Numbers, depth: int) {
    && depth > 0 && nums.read(nums.show(depth)) == Some(depth)
    && forall i :: 0 <= i < |nums.show(depth)| ==> nums.show(depth)[i] != ' ' && nums.show(depth)[i] != ']'
  }

  function InvokeLine(program: string, depth: int, nums: Numbers): string {
    PROGRAM + program + INVOKE + nums.show(depth) + "]"
  }

  function SuccessLine(program: string): string {
    PROGRAM + program + SUCCESS
  }

  // What the strict loop asks for besides.
  predicate ExactInvoke(log: string, nums: Numbers) {
    match ParseInvoke(log, nums.read)
    case Some(i) => log == InvokeLine(i.program, i.depth, nums)
    case None => false
  }

  predicate ExactEnd(log: string) {
    match ParseComplete(log)
    case Some(p) => log == SuccessLine(p) || PROGRAM + p + FAILED + " " <= log
    case None => false
  }

  ghost predicate Injective(name: string -> nat) {
    forall a, b :: name(a) == name(b) ==> a == b
  }

  function InvokeOf(log: string, nums: Numbers, name: string -> nat): Option<Announcement> {
    match ParseInvoke(log, nums.read)
    case Some(i) => if i.depth > 0 then Some(Announcement(name(i.program), i.depth)) else None
    case None => None
  }

  // An end without a name counts for nothing.
  function EndOf(log: string, name: string -> nat): Option<nat> {
    match ParseComplete(log)
    case Some(p) => if p == "" then None else Some(name(p))
    case None => None
  }

  /** What the loops hear in a line. */
  function ReadingOf(log: string, nums: Numbers, name: string -> nat): Reading
    requires Injective(name)
  {
    NamesStayApart(log, nums, name);
    Heard(InvokeOf(log, nums, name), ExactInvoke(log, nums), EndOf(log, name), ExactEnd(log))
  }

  lemma NamesStayApart(log: string, nums: Numbers, name: string -> nat)
    requires Injective(name)
    ensures InvokeOf(log, nums, name).Some? ==> EndOf(log, name) != Some(InvokeOf(log, nums, name).value.text)
  {
    if InvokeOf(log, nums, name).Some? && EndOf(log, name).Some? {
      NamesDiffer(log, nums.read);
    }
  }

  // ----- Lines with an invoke marker -----

  // No word of `text` but the first begins with `c`.
  predicate NoWordBegins(text: string, c: char) {
    forall i :: 0 <= i < |text| - 1 && text[i] == ' ' ==> text[i + 1] != c
  }

  lemma InvokeLetters()
    ensures |INVOKE| == 9 && INVOKE[0] == ' ' && INVOKE[1] == 'i' && INVOKE[7] == ' ' && INVOKE[8] == '['
    ensures forall i :: 1 <= i < 9 && i != 7 ==> INVOKE[i] != ' '
  {
  }

  lemma LineAt(s: string, text: string, rest: string, j: nat)
    requires s == PROGRAM + text + INVOKE + rest && 8 <= j < |s|
    ensures |s| == 8 + |text| + 9 + |rest|
    ensures j < 8 + |text| ==> s[j] == text[j - 8]
    ensures 8 + |text| <= j < 8 + |text| + 9 ==> s[j] == INVOKE[j - 8 - |text|]
    ensures 8 + |text| + 9 <= j ==> s[j] == rest[j - 8 - |text| - 9]
  {
    Markers();
  }

  lemma NoMarkerAt(s: string, text: string, rest: string, marker: string, j: nat)
    requires s == PROGRAM + text + INVOKE + rest && 8 <= j
    requires |marker| >= 2 && marker[0] == ' ' && marker[1] !in " i[" && NoWordBegins(text, marker[1])
    requires forall i :: 0 <= i < |rest| ==> rest[i] != ' '
    ensures !Begins(s, marker, j)
  {
    InvokeLetters();
    assert ' ' in " i[" && 'i' in " i[" && '[' in " i[";
    if j + 1 < |s| {
      LineAt(s, text, rest, j);
      LineAt(s, text, rest, j + 1);
    }
  }

  lemma NotFound(s: string, marker: string, from: nat)
    requires marker != "" && forall j: nat :: from <= j ==> !Begins(s, marker, j)
    ensures IndexOf(s, marker, from) == None
  {
    var found := IndexOf(s, marker, from);
    if found.Some? {
      FirstLetters(s, marker, found.value);
    }
  }

  lemma NoEndFound(s: string, text: string, rest: string, marker: string)
    requires s == PROGRAM + text + INVOKE + rest
    requires |marker| >= 2 && marker[0] == ' ' && marker[1] !in " i[" && NoWordBegins(text, marker[1])
    requires forall i :: 0 <= i < |rest| ==> rest[i] != ' '
    ensures IndexOf(s, marker, |PROGRAM|) == None
  {
    Markers();
    forall j: nat | 8 <= j
      ensures !Begins(s, marker, j)
    {
      NoMarkerAt(s, text, rest, marker, j);
    }
    NotFound(s, marker, 8);
  }

  lemma NoEnd(text: string, rest: string)
    requires NoWordBegins(text, 's') && NoWordBegins(text, 'f') && forall i :: 0 <= i < |rest| ==> rest[i] != ' '
    ensures ParseComplete(PROGRAM + text + INVOKE + rest) == None
  {
    var s := PROGRAM + text + INVOKE + rest;
    Markers();
    NoEndFound(s, text, rest, SUCCESS);
    NoEndFound(s, text, rest, FAILED);
    assert s == PROGRAM + (text + INVOKE + rest);
    StartsHere(s, PROGRAM, text + INVOKE + rest);
  }

  // A line that is read as the invoke it spells, and as no end.
  lemma HeardAsInvoke(program: string, depth: int, nums: Numbers, name: string -> nat)
    requires Injective(name) && Printable(nums, depth) && NoWordBegins(program, 's') && NoWordBegins(program, 'f')
    requires ParseInvoke(InvokeLine(program, depth, nums), nums.read) == Some(Invocation(program, depth))
    ensures ReadingOf(InvokeLine(program, depth, nums), nums, name) == Heard(Some(Announcement(name(program), depth)), true, None, false)
  {
    NoEnd(program, nums.show(depth) + "]");
    assert InvokeLine(program, depth, nums) == PROGRAM + program + INVOKE + (nums.show(depth) + "]");
  }

  /** The runtime's own invoke line: an invoke to the letter, and no end. */
  lemma InvokeIsHeard(p: string, depth: int, nums: Numbers, name: string -> nat)
    requires Injective(name) && Printable(nums, depth) && IsAddress(p)
    ensures ReadingOf(InvokeLine(p, depth, nums), nums, name) == Heard(Some(Announcement(name(p), depth)), true, None, false)
  {
    InvokeIsRead(p, nums.show(depth), nums.read);
    HeardAsInvoke(p, depth, nums, name);
  }

  lemma NoInvokeFound(p: string)
    requires IsAddress(p)
    ensures IndexOf(SuccessLine(p), INVOKE, |PROGRAM|) == None
  {
    var s := SuccessLine(p);
    Markers();
    SuccessLetters();
    forall j: nat | 8 <= j
      ensures !Begins(s, INVOKE, j)
    {
      if j < |s| {
        assert s[j] == if j < 8 + |p| then p[j - 8] else SUCCESS[j - 8 - |p|];
      }
      if j == 8 + |p| {
        assert s[j + 1] == SUCCESS[1];
      }
    }
    NotFound(s, INVOKE, 8);
  }

  lemma SuccessLetters()
    ensures |SUCCESS| == 8 && SUCCESS[1] == 's' && forall i :: 1 <= i < 8 ==> SUCCESS[i] != ' '
  {
  }

  /** The runtime's own line at the end of a call: an end to the letter, and no invoke. */
  lemma SuccessIsHeard(p: string, nums: Numbers, name: string -> nat)
    requires Injective(name) && IsAddress(p)
    ensures ReadingOf(SuccessLine(p), nums, name) == Heard(None, false, Some(name(p)), true)
  {
    SuccessIsRead(p);
    NoInvokeFound(p);
    assert SuccessLine(p) == PROGRAM + (p + SUCCESS);
    StartsHere(SuccessLine(p), PROGRAM, p + SUCCESS);
  }

  lemma TextOfWord(word: string, c: char)
    requires word != "" && word[0] != c && forall i :: 0 <= i < |word| ==> word[i] != ' '
    ensures NoWordBegins(PRINTED + word, c)
  {
    Markers();
    var text := PRINTED + word;
    forall i | 5 <= i < |text|
      ensures text[i] != ' '
    {
      assert text[i] == word[i - 5];
    }
    assert text[5] == word[0];
    assert forall i :: 0 <= i < 4 ==> text[i] == PRINTED[i];
  }

  /**
   A program that prints one word before " invoke [n]", the word beginning with neither of "i", "s" and "f",
   is heard to the letter as the invoke of that word at depth `n`, and as no end.
   */
  lemma MisreadIsHeard(word: string, depth: int, nums: Numbers, name: string -> nat)
    requires Injective(name) && Printable(nums, depth)
    requires word != "" && word[0] !in "isf" && forall i :: 0 <= i < |word| ==> word[i] != ' '
    ensures var log := PROGRAM + PRINTED + (word + INVOKE + nums.show(depth) + "]");
            ReadingOf(log, nums, name) == Heard(Some(Announcement(name(PRINTED + word), depth)), true, None, false)
  {
    MisreadLine(word, nums.show(depth), nums.read);
    assert 'i' in "isf" && 's' in "isf" && 'f' in "isf";
    TextOfWord(word, 's');
    TextOfWord(word, 'f');
    HeardAsInvoke(PRINTED + word, depth, nums, name);
  }

  /** So at depth 1 it is what misleads both loops. */
  lemma MisreadIsMisread(word: string, nums: Numbers, name: string -> nat)
    requires Injective(name) && Printable(nums, 1)
    requires word != "" && word[0] !in "isf" && forall i :: 0 <= i < |word| ==> word[i] != ' '
    ensures ReadingOf(PROGRAM + PRINTED + (word + INVOKE + nums.show(1) + "]"), nums, name) == Misread(name(PRINTED + word))
  {
    MisreadIsHeard(word, 1, nums, name);
  }
}
