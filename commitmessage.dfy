/**
 * The commit-message helper: the staged diff classifies the change, the
 * staged file names are listed after it. The two `git diff` outputs are
 * inputs here.
 */
module CommitMessage {
  import opened Strings

  const FixWord: string := "fix"
  const AddWord: string := "add"
  const RefactorWord: string := "refactor"

  const FixType: string := "fix"
  const FeatType: string := "feat"
  const RefactorType: string := "refactor"
  const ChoreType: string := "chore"

  const NoChanges: string := "No changes staged for commit."
  const UpdateInfix: string := ": Update "
  const FileSeparator: string := ", "

  /**
   * `determine_message_type`: the lower-cased diff is searched for "fix",
   * then "add", then "refactor"; the first one found decides the type.
   */
  function MessageType(diff: string): (t: string)
    ensures t == FixType <==> Contains(Lower(diff), FixWord)
    ensures t == FeatType <==> !Contains(Lower(diff), FixWord) && Contains(Lower(diff), AddWord)
    ensures (t == RefactorType <==>
      !Contains(Lower(diff), FixWord) && !Contains(Lower(diff), AddWord) && Contains(Lower(diff), RefactorWord))
    ensures (t == ChoreType <==>
      !Contains(Lower(diff), FixWord) && !Contains(Lower(diff), AddWord) && !Contains(Lower(diff), RefactorWord))
  {
    var lower := Lower(diff);
    if Contains(lower, FixWord) then FixType
    else if Contains(lower, AddWord) then FeatType
    else if Contains(lower, RefactorWord) then RefactorType
    else ChoreType
  }

  /** Lower-casing twice is lower-casing once. */
  lemma LowerIdempotent(s: string)
    ensures Lower(Lower(s)) == Lower(s)
  {
  }

  /** The classification does not depend on letter case. */
  lemma MessageTypeIgnoresCase(diff: string)
    ensures MessageType(Lower(diff)) == MessageType(diff)
  {
    LowerIdempotent(diff);
  }

  /** An occurrence survives lower-casing of both texts. */
  lemma {:induction false} LowerContains(s: string, sub: string)
    requires Contains(s, sub)
    ensures Contains(Lower(s), Lower(sub))
    decreases |s|
  {
    if StartsWith(s, sub) {
      assert Lower(s)[..|sub|] == Lower(sub) by {
        assert forall i :: 0 <= i < |sub| ==> Lower(s)[i] == ToLowerChar(sub[i]);
      }
    } else {
      LowerContains(s[1..], sub);
      assert Lower(s)[1..] == Lower(s[1..]);
    }
  }

  /** "Fix", "FIX" or any other casing of the word anywhere in the diff makes it a fix. */
  lemma AnyCaseFix(diff: string, word: string)
    requires Contains(diff, word) && Lower(word) == FixWord
    ensures MessageType(diff) == FixType
  {
    LowerContains(diff, word);
  }

  /** Text around an occurrence keeps it. */
  lemma {:induction false} ContainsExtended(a: string, sub: string, b: string)
    requires Contains(a, sub)
    ensures Contains(a + b, sub)
    decreases |a|
  {
    if StartsWith(a, sub) {
      assert (a + b)[..|sub|] == a[..|sub|];
    } else {
      ContainsExtended(a[1..], sub, b);
      assert (a + b)[1..] == a[1..] + b;
    }
  }

  /** More diff text never turns a fix into anything else. */
  lemma FixStaysFix(a: string, b: string)
    requires MessageType(a) == FixType
    ensures MessageType(a + b) == FixType
  {
    LowerConcat(a, b);
    ContainsExtended(Lower(a), FixWord, Lower(b));
  }

  lemma LowerConcat(a: string, b: string)
    ensures Lower(a + b) == Lower(a) + Lower(b)
  {
    assert forall i :: 0 <= i < |a + b| ==> Lower(a + b)[i] == (Lower(a) + Lower(b))[i];
  }

  /**
   * `get_staged_file_list`: the `--name-only` output stripped and split on
   * newlines. Joining the pieces with newlines gives the stripped output
   * back; an empty output gives one empty name.
   */
  function StagedFiles(output: string): (files: seq<string>)
    ensures |files| >= 1
    ensures forall name :: name in files ==> '\n' !in name
    ensures Join("\n", files) == Strip(output)
    ensures Strip(output) == [] ==> files == [[]]
  {
    var stripped := Strip(output);
    SplitPiecesLackSep(stripped, '\n');
    JoinSplit(stripped, '\n');
    Split(stripped, '\n')
  }

  /**
   * `generate_commit_message` on the two outputs of `git diff --staged`:
   * without a diff the fixed notice, otherwise the type, ": Update " and
   * the staged names joined by ", ".
   */
  function GenerateMessage(diff: string, nameOnly: string): (m: string)
    ensures m == NoChanges <==> diff == []
    ensures diff != [] ==> StartsWith(m, MessageType(diff) + UpdateInfix)
    ensures diff != [] ==> m[|MessageType(diff) + UpdateInfix|..] == Join(FileSeparator, StagedFiles(nameOnly))
  {
    if diff == [] then NoChanges
    else
      var m := MessageType(diff) + UpdateInfix + Join(FileSeparator, StagedFiles(nameOnly));
      assert m[0] != NoChanges[0];
      m
  }

  /** The type can be read back from a message: it is the text before the first colon. */
  lemma TypeReadBack(diff: string, nameOnly: string)
    requires diff != []
    ensures Split(GenerateMessage(diff, nameOnly), ':')[0] == MessageType(diff)
  {
    var t := MessageType(diff);
    var m := GenerateMessage(diff, nameOnly);
    var rest := m[|t| + 1..];
    assert UpdateInfix == [':'] + UpdateInfix[1..];
    assert m == t + [':'] + rest;
    TypeLacksColon(diff);
    IndexOfAfter(t, ':', rest);
    SplitAtFirst(m, ':');
    assert m[..|t|] == t;
  }

  lemma TypeLacksColon(diff: string)
    ensures ':' !in MessageType(diff)
  {
    var t := MessageType(diff);
    assert t == FixType || t == FeatType || t == RefactorType || t == ChoreType;
  }

  /** With one staged file the message names exactly that file. */
  lemma OneFile(diff: string, name: string)
    requires diff != [] && name != [] && '\n' !in name && !IsSpace(name[0]) && !IsSpace(name[|name| - 1])
    ensures GenerateMessage(diff, name) == MessageType(diff) + UpdateInfix + name
  {
    assert Strip(name) == name;
    assert IndexOf(name, '\n') == |name|;
  }
}
