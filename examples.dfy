/**
 The unit tests of PicMeta as lemmas about the model: the substring filter on
 "the quick brown fox", and get_metadata on mock files whose parser returns a
 fixed tag map per file (and fails on a file it has no data for).
 */
module PicMetaExamples {
  import opened Strings
  import opened PicMeta

  const Fox: string := "the quick brown fox"

  // PicMeta_test.py:76-89, one case per lemma

  lemma EmptyNameEmptyFilters()
    ensures ContainsSubstring("", []) == Ok(false)
  {
  }

  lemma NoFiltersMatchAll()
    ensures ContainsSubstring(Fox, []) == Ok(true)
  {
  }

  lemma EmptyNameNeverMatches()
    ensures ContainsSubstring("", ["dog"]) == Ok(false)
  {
  }

  lemma EmptyFilterRejected()
    ensures ContainsSubstring(Fox, [""]) == Err(EmptyFilter)
    ensures ContainsSubstring(Fox, ["dog", ""]) == Err(EmptyFilter)
    ensures ContainsSubstring(Fox, ["fox", ""]) == Err(EmptyFilter)
  {
    assert [] in ["dog", ""] && [] in ["fox", ""];
  }

  lemma AbsentWordDoesNotMatch()
    ensures ContainsSubstring(Fox, ["dog"]) == Ok(false)
  {
    MissingCharacter("dog", Fox, 'd');
  }

  lemma EachWordMatches()
    ensures ContainsSubstring(Fox, ["the"]) == Ok(true)
    ensures ContainsSubstring(Fox, ["quick"]) == Ok(true)
    ensures ContainsSubstring(Fox, ["brown"]) == Ok(true)
    ensures ContainsSubstring(Fox, ["fox"]) == Ok(true)
  {
    assert OccursAt("the", Fox, 0);
    assert OccursAt("quick", Fox, 4);
    assert OccursAt("brown", Fox, 10);
    assert OccursAt("fox", Fox, 16);
  }

  lemma AnyFilterMatches()
    ensures ContainsSubstring(Fox, ["dog", "fox"]) == Ok(true)
    ensures ContainsSubstring(Fox, ["quick", "fox"]) == Ok(true)
  {
    assert OccursAt("fox", Fox, 16);
    assert "fox" in ["dog", "fox"] && "fox" in ["quick", "fox"];
  }

  lemma MatchIsCaseSensitive()
    ensures ContainsSubstring(Fox, ["Fox"]) == Ok(false)
  {
    MissingCharacter("Fox", Fox, 'F');
  }

  /** A file object: an identity and its `name`. */
  datatype MockFile = MockFile(id: nat, fileName: string)

  function Name(f: MockFile): string { f.fileName }

  const File1 := MockFile(1, "abc.jpg")
  const File2 := MockFile(2, "def.jpg")
  const File3 := MockFile(3, "xyz.jpg")
  const File4 := MockFile(4, "xyz.jpg")

  const Abc: map<string, string> := map["shared" := "abc_shared", "abc_only" := "abc only"]
  const Def: map<string, string> := map["shared" := "def_shared", "def_only" := "def only"]
  const Hij: map<string, string> := map["shared" := "hij shared", "hij_only" := "hij only"]

  /** The mock parser: data for the first three files, failure for the fourth. */
  function MockParse(f: MockFile): Option<map<string, string>> {
    if f == File1 then Some(Abc)
    else if f == File2 then Some(Def)
    else if f == File3 then Some(Hij)
    else None
  }

  /** The record of a two-tag map is decided tag by tag. */
  lemma RecordOfTwoTags(k1: string, v1: string, k2: string, v2: string, labels: seq<string>)
    requires k1 != k2
    ensures Record(map[k1 := v1, k2 := v2], labels) ==
              (if Selected(k1, labels) then map[k1 := v1] else map[]) +
              (if Selected(k2, labels) then map[k2 := v2] else map[])
  {
  }

  lemma LabelIsValid(l: string)
    requires l != [] && !IsWhitespace(l[0])
    ensures Strip(l) != []
  {
  }

  /** get_metadata on one file that parses. */
  lemma OneFile(f: MockFile, labels: seq<string>)
    requires LabelsValid(labels) && MockParse(f).Some?
    ensures Metadata(MockParse, Name, [f], labels) == Ok(map[Name(f) := Record(MockParse(f).value, labels)])
  {
    var tags := MockParse(f).value;
    assert [f][1..] == [] && [f][0] == f;
    assert Metadata(MockParse, Name, [f], labels) == Collect(MockParse, Name, labels, map[], [f]);
    assert Collect(MockParse, Name, labels, map[], [f])
        == Collect(MockParse, Name, labels, map[][Name(f) := Record(tags, labels)], []);
  }

  /** get_metadata on two files that parse. */
  lemma TwoFiles(f: MockFile, g: MockFile, labels: seq<string>)
    requires LabelsValid(labels) && MockParse(f).Some? && MockParse(g).Some?
    ensures Metadata(MockParse, Name, [f, g], labels) ==
              Ok(map[Name(f) := Record(MockParse(f).value, labels), Name(g) := Record(MockParse(g).value, labels)])
  {
    var r := map[Name(f) := Record(MockParse(f).value, labels)];
    assert [f, g][1..] == [g] && [f, g][0] == f && [g][1..] == [] && [g][0] == g;
    assert Metadata(MockParse, Name, [f, g], labels) == Collect(MockParse, Name, labels, map[], [f, g]);
    assert Collect(MockParse, Name, labels, map[], [f, g]) == Collect(MockParse, Name, labels, r, [g]);
    assert Collect(MockParse, Name, labels, r, [g])
        == Collect(MockParse, Name, labels, r[Name(g) := Record(MockParse(g).value, labels)], []);
  }

  // PicMeta_test.py:102-106

  lemma NoFilesRejected()
    ensures Metadata(MockParse, Name, [], ["label"]) == Err(NoFiles)
  {
    LabelIsValid("label");
  }

  lemma MissingFileFails()
    ensures Metadata(MockParse, Name, [File4], []) == Err(SourceFailed)
  {
  }

  lemma EmptyLabelRejected()
    ensures Metadata(MockParse, Name, [File4], [""]) == Err(BlankLabel)
    ensures Metadata(MockParse, Name, [File1], [""]) == Err(BlankLabel)
    ensures Metadata(MockParse, Name, [File2], [""]) == Err(BlankLabel)
    ensures Metadata(MockParse, Name, [File1, File2], [""]) == Err(BlankLabel)
  {
    assert !LabelsValid([""]) by { assert Strip([""][0]) == []; }
  }

  /** A tag is selected when one of the (non-empty) labels occurs in it. */
  lemma Picked(tag: string, labels: seq<string>, l: string, i: int)
    requires [] !in labels && l in labels && OccursAt(l, tag, i) && tag != []
    ensures Selected(tag, labels)
  {
  }

  /** A non-empty tag is left out when no (non-empty) label occurs in it. */
  lemma Skipped(tag: string, labels: seq<string>)
    requires labels != [] && [] !in labels && tag != []
    requires forall l :: l in labels ==> !IsSubstring(l, tag)
    ensures !Selected(tag, labels)
  {
  }

  // PicMeta_test.py:108-131

  lemma FirstFileAllTags()
    ensures Metadata(MockParse, Name, [File1], []) == Ok(map["abc.jpg" := Abc])
  {
    RecordWithoutLabels(Abc);
    assert Abc - {[]} == Abc;
    OneFile(File1, []);
  }

  lemma RecordShared()
    ensures Record(Abc, ["shared"]) == map["shared" := "abc_shared"]
  {
    Picked("shared", ["shared"], "shared", 0);
    MissingCharacter("shared", "abc_only", 's');
    Skipped("abc_only", ["shared"]);
    RecordOfTwoTags("shared", "abc_shared", "abc_only", "abc only", ["shared"]);
  }

  lemma FirstFileShared()
    ensures Metadata(MockParse, Name, [File1], ["shared"]) == Ok(map["abc.jpg" := map["shared" := "abc_shared"]])
  {
    LabelIsValid("shared");
    RecordShared();
    OneFile(File1, ["shared"]);
  }

  lemma RecordAbc()
    ensures Record(Abc, ["abc"]) == map["abc_only" := "abc only"]
  {
    MissingCharacter("abc", "shared", 'c');
    Skipped("shared", ["abc"]);
    Picked("abc_only", ["abc"], "abc", 0);
    RecordOfTwoTags("shared", "abc_shared", "abc_only", "abc only", ["abc"]);
  }

  lemma FirstFileAbc()
    ensures Metadata(MockParse, Name, [File1], ["abc"]) == Ok(map["abc.jpg" := map["abc_only" := "abc only"]])
  {
    LabelIsValid("abc");
    RecordAbc();
    OneFile(File1, ["abc"]);
  }

  lemma RecordAbcOrSh()
    ensures Record(Abc, ["abc", "sh"]) == Abc
  {
    Picked("shared", ["abc", "sh"], "sh", 0);
    Picked("abc_only", ["abc", "sh"], "abc", 0);
    RecordOfTwoTags("shared", "abc_shared", "abc_only", "abc only", ["abc", "sh"]);
  }

  lemma FirstFileAbcOrSh()
    ensures Metadata(MockParse, Name, [File1], ["abc", "sh"]) == Ok(map["abc.jpg" := Abc])
  {
    LabelIsValid("abc");
    LabelIsValid("sh");
    RecordAbcOrSh();
    OneFile(File1, ["abc", "sh"]);
  }

  lemma RecordNotThere()
    ensures Record(Abc, ["not there"]) == map[]
  {
    MissingCharacter("not there", "shared", 't');
    MissingCharacter("not there", "abc_only", 't');
    Skipped("shared", ["not there"]);
    Skipped("abc_only", ["not there"]);
    RecordOfTwoTags("shared", "abc_shared", "abc_only", "abc only", ["not there"]);
  }

  lemma FirstFileNothing()
    ensures Metadata(MockParse, Name, [File1], ["not there"]) == Ok(map["abc.jpg" := map[]])
  {
    LabelIsValid("not there");
    RecordNotThere();
    OneFile(File1, ["not there"]);
  }

  lemma RecordAbcOnly()
    ensures Record(Abc, ["abc_only"]) == map["abc_only" := "abc only"]
  {
    MissingCharacter("abc_only", "shared", '_');
    Skipped("shared", ["abc_only"]);
    Picked("abc_only", ["abc_only"], "abc_only", 0);
    RecordOfTwoTags("shared", "abc_shared", "abc_only", "abc only", ["abc_only"]);
  }

  lemma FirstFileAbcOnly()
    ensures Metadata(MockParse, Name, [File1], ["abc_only"]) == Ok(map["abc.jpg" := map["abc_only" := "abc only"]])
  {
    LabelIsValid("abc_only");
    RecordAbcOnly();
    OneFile(File1, ["abc_only"]);
  }

  // PicMeta_test.py:135-160

  lemma SecondFileAllTags()
    ensures Metadata(MockParse, Name, [File2], []) == Ok(map["def.jpg" := Def])
  {
    RecordWithoutLabels(Def);
    assert Def - {[]} == Def;
    OneFile(File2, []);
  }

  lemma RecordSharedOfDef()
    ensures Record(Def, ["shared"]) == map["shared" := "def_shared"]
  {
    Picked("shared", ["shared"], "shared", 0);
    MissingCharacter("shared", "def_only", 's');
    Skipped("def_only", ["shared"]);
    RecordOfTwoTags("shared", "def_shared", "def_only", "def only", ["shared"]);
  }

  lemma SecondFileShared()
    ensures Metadata(MockParse, Name, [File2], ["shared"]) == Ok(map["def.jpg" := map["shared" := "def_shared"]])
  {
    LabelIsValid("shared");
    RecordSharedOfDef();
    OneFile(File2, ["shared"]);
  }

  lemma SecondFileDef()
    ensures Metadata(MockParse, Name, [File2], ["def"]) == Ok(map["def.jpg" := map["def_only" := "def only"]])
  {
    LabelIsValid("def");
    SecondRecordDef();
    OneFile(File2, ["def"]);
  }

  lemma RecordDefOnly()
    ensures Record(Def, ["def_only"]) == map["def_only" := "def only"]
  {
    MissingCharacter("def_only", "shared", '_');
    Skipped("shared", ["def_only"]);
    Picked("def_only", ["def_only"], "def_only", 0);
    RecordOfTwoTags("shared", "def_shared", "def_only", "def only", ["def_only"]);
  }

  lemma SecondFileDefOnly()
    ensures Metadata(MockParse, Name, [File2], ["def_only"]) == Ok(map["def.jpg" := map["def_only" := "def only"]])
  {
    LabelIsValid("def_only");
    RecordDefOnly();
    OneFile(File2, ["def_only"]);
  }

  lemma SecondFileDefOrSh()
    ensures Metadata(MockParse, Name, [File2], ["def", "sh"]) == Ok(map["def.jpg" := Def])
  {
    DefOrShValid();
    SecondRecordDefOrSh();
    OneFile(File2, ["def", "sh"]);
  }

  lemma RecordNotThereOfDef()
    ensures Record(Def, ["not there"]) == map[]
  {
    MissingCharacter("not there", "shared", 't');
    MissingCharacter("not there", "def_only", 't');
    Skipped("shared", ["not there"]);
    Skipped("def_only", ["not there"]);
    RecordOfTwoTags("shared", "def_shared", "def_only", "def only", ["not there"]);
  }

  lemma SecondFileNothing()
    ensures Metadata(MockParse, Name, [File2], ["not there"]) == Ok(map["def.jpg" := map[]])
  {
    LabelIsValid("not there");
    RecordNotThereOfDef();
    OneFile(File2, ["not there"]);
  }

  // PicMeta_test.py:162-170, 176-178 and 184-186

  lemma BothFilesAllTags()
    ensures Metadata(MockParse, Name, [File1, File2], []) == Ok(map["abc.jpg" := Abc, "def.jpg" := Def])
  {
    RecordWithoutLabels(Abc);
    RecordWithoutLabels(Def);
    assert Abc - {[]} == Abc;
    assert Def - {[]} == Def;
    TwoFiles(File1, File2, []);
  }

  lemma BothFilesShared()
    ensures Metadata(MockParse, Name, [File1, File2], ["shared"]) ==
              Ok(map["abc.jpg" := map["shared" := "abc_shared"], "def.jpg" := map["shared" := "def_shared"]])
  {
    LabelIsValid("shared");
    RecordShared();
    RecordSharedOfDef();
    TwoFiles(File1, File2, ["shared"]);
  }

  lemma FirstRecordDefOnly()
    ensures Record(Abc, ["def_only"]) == map[]
  {
    MissingCharacter("def_only", "shared", '_');
    MissingCharacter("def_only", "abc_only", 'd');
    Skipped("shared", ["def_only"]);
    Skipped("abc_only", ["def_only"]);
    RecordOfTwoTags("shared", "abc_shared", "abc_only", "abc only", ["def_only"]);
  }

  lemma BothFilesDefOnly()
    ensures Metadata(MockParse, Name, [File1, File2], ["def_only"]) ==
              Ok(map["abc.jpg" := map[], "def.jpg" := map["def_only" := "def only"]])
  {
    LabelIsValid("def_only");
    FirstRecordDefOnly();
    RecordDefOnly();
    TwoFiles(File1, File2, ["def_only"]);
  }

  lemma BothFilesNothing()
    ensures Metadata(MockParse, Name, [File1, File2], ["not there"]) == Ok(map["abc.jpg" := map[], "def.jpg" := map[]])
  {
    LabelIsValid("not there");
    RecordNotThere();
    RecordNotThereOfDef();
    TwoFiles(File1, File2, ["not there"]);
  }

  // PicMeta_test.py:172-182

  lemma FirstRecordDef()
    ensures Record(Abc, ["def"]) == map[]
  {
    MissingCharacter("def", "shared", 'f');
    MissingCharacter("def", "abc_only", 'f');
    Skipped("shared", ["def"]);
    Skipped("abc_only", ["def"]);
    RecordOfTwoTags("shared", "abc_shared", "abc_only", "abc only", ["def"]);
  }

  lemma SecondRecordDef()
    ensures Record(Def, ["def"]) == map["def_only" := "def only"]
  {
    MissingCharacter("def", "shared", 'f');
    Skipped("shared", ["def"]);
    Picked("def_only", ["def"], "def", 0);
    RecordOfTwoTags("shared", "def_shared", "def_only", "def only", ["def"]);
  }

  lemma BothFilesDef()
    ensures Metadata(MockParse, Name, [File1, File2], ["def"]) ==
              Ok(map["abc.jpg" := map[], "def.jpg" := map["def_only" := "def only"]])
  {
    LabelIsValid("def");
    FirstRecordDef();
    SecondRecordDef();
    TwoFiles(File1, File2, ["def"]);
  }

  lemma FirstRecordDefOrSh()
    ensures Record(Abc, ["def", "sh"]) == map["shared" := "abc_shared"]
  {
    Picked("shared", ["def", "sh"], "sh", 0);
    assert !Selected("abc_only", ["def", "sh"]) by {
      MissingCharacter("def", "abc_only", 'f');
      MissingCharacter("sh", "abc_only", 's');
      Skipped("abc_only", ["def", "sh"]);
    }
    RecordOfTwoTags("shared", "abc_shared", "abc_only", "abc only", ["def", "sh"]);
  }

  lemma SecondRecordDefOrSh()
    ensures Record(Def, ["def", "sh"]) == Def
  {
    Picked("shared", ["def", "sh"], "sh", 0);
    Picked("def_only", ["def", "sh"], "def", 0);
    RecordOfTwoTags("shared", "def_shared", "def_only", "def only", ["def", "sh"]);
  }

  lemma DefOrShValid()
    ensures LabelsValid(["def", "sh"])
  {
    LabelIsValid("def");
    LabelIsValid("sh");
  }

  lemma BothFilesDefOrSh()
    ensures Metadata(MockParse, Name, [File1, File2], ["def", "sh"]) ==
              Ok(map["abc.jpg" := map["shared" := "abc_shared"], "def.jpg" := Def])
  {
    DefOrShValid();
    FirstRecordDefOrSh();
    SecondRecordDefOrSh();
    TwoFiles(File1, File2, ["def", "sh"]);
  }
}
