/**
 PicMeta: a metadata reader that, for a batch of image files, returns the
 tags whose names contain one of the caller's labels.

 The PicMeta object holds nothing but the parser it was constructed with and
 never changes it, so the parser (a file either fails to parse or yields a
 map from tag name to value) and the `file.name` accessor are parameters here.
 */
module PicMeta {
  import opened Strings

  datatype Option<T> = None | Some(value: T)

  /** Why a call fails. The source raises assertion and type errors; they are
      one error outcome here, labelled by the check that fired. */
  datatype Error =
    | EmptyFilter    // contains_substring: a filter string is ""
    | BlankLabel     // get_metadata: a label is empty after strip()
    | NoFiles        // get_metadata: the file list is empty
    | SourceFailed   // get_metadata: the parser failed on a file

  datatype Result<T> = Ok(value: T) | Err(error: Error)

  /*
   * contains_substring
   */

  /** The loop that asserts every filter is non-empty. */
  function NoEmptyFilter(filters: seq<string>): (r: bool)
    ensures r <==> [] !in filters
  {
    filters == [] || (filters[0] != [] && NoEmptyFilter(filters[1..]))
  }

  /** The loop that returns True at the first filter found in `name`. */
  function AnyOccurs(filters: seq<string>, name: string): (r: bool)
    ensures r <==> exists f :: f in filters && IsSubstring(f, name)
  {
    filters != [] && (Occurs(filters[0], name) || AnyOccurs(filters[1..], name))
  }

  /** `PicMeta.contains_substring(name, filters)`. The cases are tried in the
      source's order: an empty name never matches, an empty filter list
      matches everything else, an empty filter string is an error whatever
      the other filters are, and otherwise the name matches when some filter
      occurs in it. */
  function ContainsSubstring(name: string, filters: seq<string>): (r: Result<bool>)
    ensures name == [] ==> r == Ok(false)
    ensures name != [] && filters == [] ==> r == Ok(true)
    ensures name != [] && [] in filters ==> r == Err(EmptyFilter)
    ensures name != [] && filters != [] && [] !in filters ==>
              r == Ok(exists f :: f in filters && IsSubstring(f, name))
  {
    if name == [] then Ok(false)
    else if |filters| == 0 then Ok(true)
    else if !NoEmptyFilter(filters) then Err(EmptyFilter)
    else Ok(AnyOccurs(filters, name))
  }

  /** With non-empty filters, a name matches the list exactly when it matches
      one of the filters on its own: the list is a logical OR. */
  lemma MatchIsUnionOfSingleFilters(name: string, filters: seq<string>)
    requires filters != [] && [] !in filters
    ensures ContainsSubstring(name, filters) == Ok(true) <==>
              exists f :: f in filters && ContainsSubstring(name, [f]) == Ok(true)
    ensures ContainsSubstring(name, filters).Ok?
  {
  }

  /*
   * get_metadata
   */

  /** The label check of get_metadata: no label is blank after strip(). */
  predicate LabelsValid(labels: seq<string>) {
    forall k :: 0 <= k < |labels| ==> Strip(labels[k]) != []
  }

  /** A label that passes get_metadata's check is not empty, so the
      empty-filter assertion of contains_substring never fires on a call
      made from get_metadata. */
  lemma ValidLabelsNeverRejected(labels: seq<string>, name: string)
    requires LabelsValid(labels)
    ensures [] !in labels
    ensures ContainsSubstring(name, labels).Ok?
  {
  }

  /** contains_substring accepts the tag name. */
  predicate Selected(tag: string, labels: seq<string>) {
    ContainsSubstring(tag, labels) == Ok(true)
  }

  /** The record get_metadata builds for one file from its tags: a sub-map
      of the parser's tags that never holds the empty tag name. Meant for
      labels that passed get_metadata's check, for which contains_substring
      cannot fail (ValidLabelsNeverRejected); a failure would count as "not
      selected" here. */
  function Record<V>(tags: map<string, V>, labels: seq<string>): (r: map<string, V>)
    ensures r.Keys <= tags.Keys && [] !in r
    ensures forall tag :: tag in r ==> r[tag] == tags[tag]
  {
    map tag | tag in tags && Selected(tag, labels) :: tags[tag]
  }

  /** A file's record keeps exactly the tags whose name is non-empty and, when
      there are labels, contains one of them; every value kept is the
      parser's value for that tag. */
  lemma RecordContents<V>(tags: map<string, V>, labels: seq<string>)
    requires LabelsValid(labels)
    ensures forall tag :: tag in Record(tags, labels) <==>
              tag in tags && tag != [] &&
              (labels == [] || exists l :: l in labels && IsSubstring(l, tag))
    ensures forall tag :: tag in Record(tags, labels) ==> Record(tags, labels)[tag] == tags[tag]
  {
  }

  /** With no labels, the record is every tag but one with an empty name. */
  lemma RecordWithoutLabels<V>(tags: map<string, V>)
    ensures Record(tags, []) == tags - {[]}
  {
  }

  /** With labels, a file's record is the union of the records that each
      label would select on its own. */
  lemma RecordIsUnionOfSingleLabels<V>(tags: map<string, V>, labels: seq<string>)
    requires labels != [] && LabelsValid(labels)
    ensures forall tag :: tag in Record(tags, labels) <==>
              exists l :: l in labels && tag in Record(tags, [l])
  {
  }

  /** The per-file loop of get_metadata, from the result built so far over
      the files still to do: a file's parser failure ends the call with no
      result, and each file's record is stored under its name, replacing
      whatever an earlier file of that name stored. */
  function Collect<F, V>(parse: F -> Option<map<string, V>>, name: F -> string, labels: seq<string>,
                         acc: map<string, map<string, V>>, files: seq<F>): (r: Result<map<string, map<string, V>>>)
    ensures r.Ok? ==> acc.Keys <= r.value.Keys
    ensures r.Err? ==> r.error == SourceFailed
    decreases |files|
  {
    if files == [] then Ok(acc)
    else match parse(files[0])
      case None => Err(SourceFailed)
      case Some(tags) => Collect(parse, name, labels, acc[name(files[0]) := Record(tags, labels)], files[1..])
  }

  /** What `get_metadata(files, labels)` returns: the labels are checked
      first, then the file list, then the files are processed in order. */
  function Metadata<F, V>(parse: F -> Option<map<string, V>>, name: F -> string,
                          files: seq<F>, labels: seq<string>): (r: Result<map<string, map<string, V>>>)
    ensures r.Ok? ==> LabelsValid(labels) && files != []
    ensures r.Err? ==> r.error != EmptyFilter
  {
    if !LabelsValid(labels) then Err(BlankLabel)
    else if files == [] then Err(NoFiles)
    else Collect(parse, name, labels, map[], files)
  }

  /** Lines 68-71 of get_metadata for one parsed file: the tag names that
      contains_substring accepts, each copied with its value into a fresh
      record. The labels have passed get_metadata's check. */
  method BuildRecord<V>(tags: map<string, V>, labels: seq<string>) returns (metadata: map<string, V>)
    requires LabelsValid(labels)
    ensures metadata == Record(tags, labels)
  {
    var foundLabels := set tag | tag in tags && Selected(tag, labels);
    metadata := map[];
    var pending := foundLabels;
    while pending != {}
      invariant pending <= foundLabels
      invariant metadata.Keys == foundLabels - pending
      invariant forall tag :: tag in metadata ==> tag in tags && metadata[tag] == tags[tag]
      decreases |pending|
    {
      var key :| key in pending;
      metadata := metadata[key := tags[key]];
      pending := pending - {key};
    }
  }

  /** The first loop of get_metadata: every label must be non-empty once
      stripped of surrounding whitespace. */
  method CheckLabels(labels: seq<string>) returns (ok: bool)
    ensures ok == LabelsValid(labels)
    ensures ok <==> forall l :: l in labels ==> !AllWhitespace(l)
  {
    for i := 0 to |labels|
      invariant forall k :: 0 <= k < i ==> Strip(labels[k]) != []
    {
      if Strip(labels[i]) == [] {
        return false;
      }
    }
    return true;
  }

  /** `PicMeta(parse).get_metadata(files, labels)`, with `name(f)` for
      `f.name`. */
  method GetMetadata<F, V>(parse: F -> Option<map<string, V>>, name: F -> string,
                           files: seq<F>, labels: seq<string>)
    returns (r: Result<map<string, map<string, V>>>)
    ensures r == Metadata(parse, name, files, labels)
  {
    var labelsOk := CheckLabels(labels);
    if !labelsOk {
      return Err(BlankLabel);
    }
    if |files| == 0 {
      return Err(NoFiles);
    }
    var results := map[];
    for n := 0 to |files|
      invariant Collect(parse, name, labels, results, files[n..]) == Metadata(parse, name, files, labels)
    {
      assert files[n..][1..] == files[n + 1..];
      var image := parse(files[n]);
      if image.None? {
        return Err(SourceFailed);
      }
      var metadata := BuildRecord(image.value, labels);
      results := results[name(files[n]) := metadata];
    }
    return Ok(results);
  }

  /*
   * Properties of get_metadata
   */

  /** The per-file loop fails exactly when some remaining file fails to parse. */
  lemma {:induction false} CollectFails<F, V>(parse: F -> Option<map<string, V>>, name: F -> string,
                                              labels: seq<string>, acc: map<string, map<string, V>>, files: seq<F>)
    ensures Collect(parse, name, labels, acc, files).Err? <==> exists f :: f in files && parse(f).None?
    ensures Collect(parse, name, labels, acc, files).Err? ==>
              Collect(parse, name, labels, acc, files).error == SourceFailed
    decreases |files|
  {
    if files != [] && parse(files[0]).Some? {
      var tags := parse(files[0]).value;
      CollectFails(parse, name, labels, acc[name(files[0]) := Record(tags, labels)], files[1..]);
      assert files == [files[0]] + files[1..];
    }
  }

  /** The keys of the per-file loop's result: the names already there and
      the name of every remaining file. */
  lemma {:induction false} CollectKeys<F, V>(parse: F -> Option<map<string, V>>, name: F -> string,
                                             labels: seq<string>, acc: map<string, map<string, V>>, files: seq<F>)
    requires Collect(parse, name, labels, acc, files).Ok?
    ensures Collect(parse, name, labels, acc, files).value.Keys == acc.Keys + set f | f in files :: name(f)
    decreases |files|
  {
    if files != [] {
      var tags := parse(files[0]).value;
      CollectKeys(parse, name, labels, acc[name(files[0]) := Record(tags, labels)], files[1..]);
      assert files == [files[0]] + files[1..];
    }
  }

  /** In the per-file loop's result, a name carries the record of the last
      remaining file with that name, and a name no remaining file has keeps
      the record it had. */
  lemma {:induction false} CollectRecords<F, V>(parse: F -> Option<map<string, V>>, name: F -> string,
                                                labels: seq<string>, acc: map<string, map<string, V>>, files: seq<F>)
    requires Collect(parse, name, labels, acc, files).Ok?
    ensures forall k :: 0 <= k < |files| && (forall j :: k < j < |files| ==> name(files[j]) != name(files[k])) ==>
              parse(files[k]).Some? && name(files[k]) in Collect(parse, name, labels, acc, files).value &&
              Collect(parse, name, labels, acc, files).value[name(files[k])] == Record(parse(files[k]).value, labels)
    ensures forall n :: n in acc && (forall f :: f in files ==> name(f) != n) ==>
              n in Collect(parse, name, labels, acc, files).value &&
              Collect(parse, name, labels, acc, files).value[n] == acc[n]
    decreases |files|
  {
    if files != [] {
      var tags := parse(files[0]).value;
      var acc' := acc[name(files[0]) := Record(tags, labels)];
      var rest := files[1..];
      CollectRecords(parse, name, labels, acc', rest);
      CollectKeys(parse, name, labels, acc', rest);
      var res := Collect(parse, name, labels, acc, files).value;
      forall k | 0 <= k < |files| && (forall j :: k < j < |files| ==> name(files[j]) != name(files[k]))
        ensures parse(files[k]).Some? && name(files[k]) in res && res[name(files[k])] == Record(parse(files[k]).value, labels)
      {
        if k == 0 {
          assert forall f :: f in rest ==> name(f) != name(files[0]);
        } else {
          assert rest[k - 1] == files[k];
          assert forall j :: k - 1 < j < |rest| ==> name(rest[j]) != name(rest[k - 1]);
        }
      }
      forall n | n in acc && (forall f :: f in files ==> name(f) != n)
        ensures n in res && res[n] == acc[n]
      {
        assert files[0] in files;
      }
    }
  }

  /** get_metadata fails exactly when a label is blank, the file list is
      empty, or some file fails to parse; the label check comes first, the
      file-list check second, and no call can fail on an empty filter. */
  lemma MetadataFails<F, V>(parse: F -> Option<map<string, V>>, name: F -> string,
                            files: seq<F>, labels: seq<string>)
    ensures Metadata(parse, name, files, labels) == Err(BlankLabel) <==> exists l :: l in labels && AllWhitespace(l)
    ensures LabelsValid(labels) && files == [] ==> Metadata(parse, name, files, labels) == Err(NoFiles)
    ensures LabelsValid(labels) && files != [] ==>
              (Metadata(parse, name, files, labels).Err? <==> exists f :: f in files && parse(f).None?)
    ensures Metadata(parse, name, files, labels).Err? ==> Metadata(parse, name, files, labels).error != EmptyFilter
  {
    if exists l :: l in labels && AllWhitespace(l) {
      var l :| l in labels && AllWhitespace(l);
      var k :| 0 <= k < |labels| && labels[k] == l;
      assert Strip(labels[k]) == [];
    }
    CollectFails(parse, name, labels, map[], files);
  }

  /** A blank label or an empty file list is reported before any file is
      parsed: the outcome is then the same whatever the parser does. */
  lemma ChecksPrecedeParsing<F, V>(parse: F -> Option<map<string, V>>, parse': F -> Option<map<string, V>>,
                                   name: F -> string, files: seq<F>, labels: seq<string>)
    requires !LabelsValid(labels) || files == []
    ensures Metadata(parse, name, files, labels) == Metadata(parse', name, files, labels)
    ensures Metadata(parse, name, files, labels).Err?
  {
  }

  /** A successful get_metadata has one entry per distinct file name. */
  lemma MetadataKeys<F, V>(parse: F -> Option<map<string, V>>, name: F -> string,
                           files: seq<F>, labels: seq<string>)
    requires Metadata(parse, name, files, labels).Ok?
    ensures Metadata(parse, name, files, labels).value.Keys == set f | f in files :: name(f)
  {
    CollectKeys(parse, name, labels, map[], files);
  }

  /** In a successful get_metadata, each name maps to the record of the last
      file with that name: exactly that file's tags that pass the labels,
      with that file's values. */
  lemma MetadataRecords<F, V>(parse: F -> Option<map<string, V>>, name: F -> string,
                              files: seq<F>, labels: seq<string>)
    requires Metadata(parse, name, files, labels).Ok?
    ensures forall k :: 0 <= k < |files| && (forall j :: k < j < |files| ==> name(files[j]) != name(files[k])) ==>
              parse(files[k]).Some? && name(files[k]) in Metadata(parse, name, files, labels).value &&
              Metadata(parse, name, files, labels).value[name(files[k])] == Record(parse(files[k]).value, labels)
  {
    CollectRecords(parse, name, labels, map[], files);
  }
}
