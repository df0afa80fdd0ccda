/**
 * The template library of the code-generation extension: templates kept in
 * memory and as `<id>.json` files of a templates directory, the commands that
 * save, import, edit, delete and export them, and the name extraction used by
 * the generated documentation.
 *
 * The directory is a map from file name to what `JSON.parse` makes of the
 * file; writing a template and reading it back gives the same template.
 */
module CodeGeneration {

  import opened Text
  import opened Wrappers

  /** A saved template; `createdAt` is the ISO time stamp, kept as text. */
  datatype Template = Template(
    id: string, name: string, description: string, content: string,
    language: string, tags: seq<string>, createdAt: string)

  /** A file of the templates directory: a template, or text `JSON.parse` rejects. */
  datatype Entry = Parsed(template: Template) | Malformed

  const JsonSuffix := ".json"

  /** The file a template is written to. */
  function FileName(id: string): string
  {
    id + JsonSuffix
  }

  /** `template-${Date.now()}`. */
  function TemplateId(now: nat): string
  {
    "template-" + NatToString(now)
  }

  // ---------------------------------------------------------------------------
  // loadTemplates

  /** `files.filter(file => file.endsWith('.json'))`. */
  function JsonFiles(names: seq<string>): (r: seq<string>)
    ensures forall n :: n in r <==> n in names && EndsWith(n, JsonSuffix)
    ensures |r| <= |names|
    decreases |names|
  {
    if names == [] then []
    else (if EndsWith(names[0], JsonSuffix) then [names[0]] else []) + JsonFiles(names[1..])
  }

  /** The `.json` files of a concatenated listing are those of each part. */
  lemma {:induction false} JsonFilesConcat(a: seq<string>, b: seq<string>)
    ensures JsonFiles(a + b) == JsonFiles(a) + JsonFiles(b)
    decreases |a|
  {
    if a == [] {
      assert a + b == b;
    } else {
      assert (a + b)[1..] == a[1..] + b;
      JsonFilesConcat(a[1..], b);
    }
  }

  /** Reading and parsing each listed file, in order; `None` as soon as one is missing or malformed. */
  function ReadAll(dir: map<string, Entry>, files: seq<string>): (r: Option<seq<Template>>)
    ensures r.Some? <==> forall i :: 0 <= i < |files| ==> files[i] in dir && dir[files[i]].Parsed?
    ensures r.Some? ==> |r.value| == |files|
    ensures r.Some? ==> forall i :: 0 <= i < |files| ==> r.value[i] == dir[files[i]].template
    decreases |files|
  {
    if files == [] then Some([])
    else if files[0] !in dir || dir[files[0]].Malformed? then None
    else
      var rest := ReadAll(dir, files[1..]);
      assert forall i :: 1 <= i < |files| ==> files[i] == files[1..][i - 1];
      if rest.None? then None else Some([dir[files[0]].template] + rest.value)
  }

  /**
   * What `loadTemplates` leaves in the list: the parsed `.json` files in
   * listing order, or nothing when the listing (`None`: the directory could
   * not be created or read) or any read or parse fails.
   */
  function LoadedTemplates(dir: map<string, Entry>, listing: Option<seq<string>>): seq<Template>
  {
    if listing.None? then []
    else
      var parsed := ReadAll(dir, JsonFiles(listing.value));
      if parsed.None? then [] else parsed.value
  }

  /** Loading keeps exactly the `.json` entries, in order, when every one of them parses. */
  lemma LoadedTemplatesShape(dir: map<string, Entry>, names: seq<string>)
    ensures var files := JsonFiles(names);
      if forall i :: 0 <= i < |files| ==> files[i] in dir && dir[files[i]].Parsed? then
        |LoadedTemplates(dir, Some(names))| == |files|
        && forall i :: 0 <= i < |files| ==> LoadedTemplates(dir, Some(names))[i] == dir[files[i]].template
      else LoadedTemplates(dir, Some(names)) == []
  {
  }

  /** A listed file whose name does not end in `.json` plays no part. */
  lemma LoadIgnoresOtherFiles(dir: map<string, Entry>, a: seq<string>, n: string, b: seq<string>)
    requires !EndsWith(n, JsonSuffix)
    ensures LoadedTemplates(dir, Some(a + [n] + b)) == LoadedTemplates(dir, Some(a + b))
  {
    JsonFilesConcat(a + [n], b);
    JsonFilesConcat(a, [n]);
    JsonFilesConcat(a, b);
    assert JsonFiles([n]) == [];
    assert JsonFiles(a) + [] == JsonFiles(a);
  }

  /** `names` is what `readdirSync` returns for the directory: each of its files once, and nothing else. */
  ghost predicate Lists(dir: map<string, Entry>, names: seq<string>)
  {
    (forall i, j :: 0 <= i < j < |names| ==> names[i] != names[j])
    && (forall n :: n in names <==> n in dir)
  }

  /** Every `.json` file of the directory parses. */
  ghost predicate JsonParses(dir: map<string, Entry>)
  {
    forall f :: f in dir && EndsWith(f, JsonSuffix) ==> dir[f].Parsed?
  }

  /** Different ids are written to different files, and every such file is a `.json` file. */
  lemma FileNameShape(a: string, b: string)
    ensures EndsWith(FileName(a), JsonSuffix)
    ensures FileName(a) == FileName(b) ==> a == b
  {
  }

  /** Filtering a listing without repeats gives a listing without repeats. */
  lemma {:induction false} JsonFilesDistinct(names: seq<string>)
    requires forall i, j :: 0 <= i < j < |names| ==> names[i] != names[j]
    ensures forall i, j :: 0 <= i < j < |JsonFiles(names)| ==> JsonFiles(names)[i] != JsonFiles(names)[j]
    decreases |names|
  {
    if names != [] {
      var rest := names[1..];
      assert forall i, j :: 0 <= i < j < |rest| ==> rest[i] == names[i + 1] && rest[j] == names[j + 1];
      JsonFilesDistinct(rest);
      assert names[0] !in rest;
      assert names[0] !in JsonFiles(rest);
    }
  }

  /**
   * Writing `<id>.json` and then loading a full listing of the directory
   * gives the template back: it is in the list, and when every parsed file
   * is named after its id, it is the one entry with that id.
   */
  lemma SaveThenLoad(dir: map<string, Entry>, t: Template, names: seq<string>)
    requires Lists(dir[FileName(t.id) := Parsed(t)], names)
    requires JsonParses(dir)
    ensures var ts := LoadedTemplates(dir[FileName(t.id) := Parsed(t)], Some(names));
      t in ts
      && (NamedById(dir) ==>
            forall i, j :: 0 <= i < |ts| && 0 <= j < |ts| && ts[i].id == t.id && ts[j].id == t.id ==>
              i == j && ts[i] == t)
  {
    var d := dir[FileName(t.id) := Parsed(t)];
    var files := JsonFiles(names);
    FileNameShape(t.id, t.id);
    assert forall i :: 0 <= i < |files| ==> files[i] in d && d[files[i]].Parsed? by {
      forall i | 0 <= i < |files|
        ensures files[i] in d && d[files[i]].Parsed?
      {
        assert files[i] in files;
      }
    }
    var ts := LoadedTemplates(d, Some(names));
    assert FileName(t.id) in files;
    var k :| 0 <= k < |files| && files[k] == FileName(t.id);
    assert ts[k] == t;
    if NamedById(dir) {
      JsonFilesDistinct(names);
      forall i | 0 <= i < |ts| && ts[i].id == t.id
        ensures files[i] == FileName(t.id) && ts[i] == t
      {
        assert ts[i] == d[files[i]].template;
      }
      assert forall i, j :: 0 <= i < j < |files| ==> files[i] != files[j];
    }
  }

  // ---------------------------------------------------------------------------
  // saveTemplate: the tags and the new template

  /** One piece, trimmed, and dropped when nothing is left. */
  function TidyPiece(piece: string): seq<string>
  {
    var t := Trim(piece);
    if t == [] then [] else [t]
  }

  /** `.map(tag => tag.trim()).filter(Boolean)`. */
  function TidyTags(pieces: seq<string>): (r: seq<string>)
    decreases |pieces|
  {
    if pieces == [] then [] else TidyPiece(pieces[0]) + TidyTags(pieces[1..])
  }

  /** `tagsInput ? tagsInput.split(',').map(tag => tag.trim()).filter(Boolean) : []`. */
  function ParseTags(tagsInput: Option<string>): seq<string>
  {
    if tagsInput.None? || tagsInput.value == [] then [] else TidyTags(Split(tagsInput.value, ','))
  }

  /** A tag is non-empty, trimmed and holds no comma. */
  predicate IsTag(tag: string)
  {
    tag != [] && Trim(tag) == tag && ',' !in tag
  }

  /** A non-empty trim of a comma-free piece is a tag. */
  lemma TrimmedPieceIsTag(piece: string)
    requires ',' !in piece && Trim(piece) != []
    ensures IsTag(Trim(piece))
  {
    TrimIdempotent(piece);
    TrimKeepsAbsent(piece, ',');
  }

  lemma {:induction false} TidyTagsAreTags(pieces: seq<string>)
    requires forall p :: p in pieces ==> ',' !in p
    ensures forall t :: t in TidyTags(pieces) ==> IsTag(t)
    decreases |pieces|
  {
    if pieces != [] {
      TidyTagsAreTags(pieces[1..]);
      if Trim(pieces[0]) != [] {
        TrimmedPieceIsTag(pieces[0]);
      }
    }
  }

  /** Every parsed tag is trimmed, non-empty and comma-free. */
  lemma ParsedTagsAreTags(tagsInput: Option<string>)
    ensures forall t :: t in ParseTags(tagsInput) ==> IsTag(t)
  {
    if tagsInput.Some? && tagsInput.value != [] {
      var pieces := Split(tagsInput.value, ',');
      assert forall p :: p in pieces ==> ',' !in p;
      TidyTagsAreTags(pieces);
    }
  }

  lemma {:induction false} TidyTagsConcat(a: seq<string>, b: seq<string>)
    ensures TidyTags(a + b) == TidyTags(a) + TidyTags(b)
    decreases |a|
  {
    if a == [] {
      assert a + b == b;
    } else {
      assert (a + b)[1..] == a[1..] + b;
      TidyTagsConcat(a[1..], b);
    }
  }

  /** The tags keep input order: the tags of `a,b` are those of `a` followed by those of `b`. */
  lemma ParseTagsConcat(a: string, b: string)
    ensures ParseTags(Some(a + [','] + b)) == ParseTags(Some(a)) + ParseTags(Some(b))
  {
    var s := a + [','] + b;
    assert s != [];
    SplitConcat(a, b, ',');
    TidyTagsConcat(Split(a, ','), Split(b, ','));
    assert ParseTags(Some(s)) == TidyTags(Split(a, ',')) + TidyTags(Split(b, ','));
    if a == [] || b == [] {
      TidyEmpty();
    }
  }

  /** The empty input yields no tag, with or without the split. */
  lemma TidyEmpty()
    ensures TidyTags(Split([], ',')) == []
  {
    assert Split([], ',') == [[]];
    assert Trim([]) == [];
  }

  lemma {:induction false} TidyTagsOfTags(tags: seq<string>)
    requires forall t :: t in tags ==> IsTag(t)
    ensures TidyTags(tags) == tags
    decreases |tags|
  {
    if tags != [] {
      assert tags[0] in tags;
      TidyTagsOfTags(tags[1..]);
    }
  }

  /** Tags written out comma-separated parse back to themselves. */
  lemma JoinedTagsParse(tags: seq<string>)
    requires forall t :: t in tags ==> IsTag(t)
    ensures ParseTags(Some(Join(tags, [',']))) == tags
  {
    if tags != [] {
      assert tags[0] in tags;
      assert forall i :: 0 <= i < |tags| ==> tags[i] in tags;
      SplitJoin(tags, ',');
      TidyTagsOfTags(tags);
      assert |Join(tags, [','])| >= |tags[0]| > 0;
    }
  }

  /** Writing the tags back out comma-separated and parsing again gives the same tags. */
  lemma ParseTagsRoundTrip(tagsInput: Option<string>)
    ensures ParseTags(Some(Join(ParseTags(tagsInput), [',']))) == ParseTags(tagsInput)
  {
    ParsedTagsAreTags(tagsInput);
    JoinedTagsParse(ParseTags(tagsInput));
  }

  /** What the `saveTemplate` command makes of the user's answers. */
  datatype SaveRequest =
    | NothingSelected       // the selection, or the whole document, is blank
    | NameDismissed         // no name was entered
    | Build(template: Template)

  /**
   * The checks and the template construction of `saveTemplate`: a blank
   * content is refused, an empty or dismissed name cancels, a missing
   * description becomes empty and missing tags become none.
   */
  function BuildTemplate(content: string, name: Option<string>, description: Option<string>,
                         tagsInput: Option<string>, languageId: string, now: nat, createdAt: string): (r: SaveRequest)
    ensures r == NothingSelected <==> Trim(content) == []
    ensures r == NameDismissed <==> Trim(content) != [] && (name.None? || name.value == [])
    ensures r.Build? ==>
      && r.template.id == TemplateId(now) && r.template.name == name.value
      && r.template.content == content && r.template.language == languageId
      && r.template.createdAt == createdAt
      && r.template.description == (if description.None? then [] else description.value)
      && r.template.tags == ParseTags(tagsInput)
  {
    if Trim(content) == [] then NothingSelected
    else if name.None? || name.value == [] then NameDismissed
    else
      Build(Template(TemplateId(now), name.value, if description.None? then [] else description.value,
                     content, languageId, ParseTags(tagsInput), createdAt))
  }

  // ---------------------------------------------------------------------------
  // importTemplate and the export name

  /** What the import dialog yields; missing fields of the JSON object read as empty text. */
  datatype ImportFile = NoFileChosen | Unparsable | Contents(template: Template)

  const ImportError := "Failed to import template: Invalid JSON file"

  /** The validation and the fresh identity of `importTemplate`. */
  function ImportedTemplate(file: ImportFile, now: nat, createdAt: string): (r: Option<Result<Template>>)
    ensures r.None? <==> file.NoFileChosen?
    ensures r.Some? && r.value.Err? <==>
      file.Unparsable? || (file.Contents? && (file.template.id == [] || file.template.name == [] || file.template.content == []))
    ensures r.Some? && r.value.Ok? ==>
      var t := file.template; var u := r.value.value;
      u.id == TemplateId(now) && u.createdAt == createdAt
      && u.name == t.name && u.description == t.description && u.content == t.content
      && u.language == t.language && u.tags == t.tags
  {
    match file
    case NoFileChosen => None
    case Unparsable => Some(Err(ImportError))
    case Contents(t) =>
      if t.id == [] || t.name == [] || t.content == [] then Some(Err(ImportError))
      else Some(Ok(t.(id := TemplateId(now), createdAt := createdAt)))
  }

  /** `${name.replace(/\s+/g, '-').toLowerCase()}` */
  function Slug(name: string): string
  {
    ToLower(ReplaceSpaceRuns(name, '-'))
  }

  /** The default file name offered by `exportTemplate`. */
  function ExportName(name: string): string
  {
    Slug(name) + "-template.json"
  }

  /** The export name is the slug and a fixed suffix; the slug has no `\s`, no capital ASCII letter and is no longer than the name. */
  lemma ExportNameShape(name: string)
    ensures EndsWith(ExportName(name), "-template.json")
    ensures |Slug(name)| <= |name|
    ensures forall i :: 0 <= i < |Slug(name)| ==> !IsSpace(Slug(name)[i]) && !('A' <= Slug(name)[i] <= 'Z')
  {
    var r := ReplaceSpaceRuns(name, '-');
    SpaceRunsNoSpace(name, '-');
    assert forall i :: 0 <= i < |r| ==> !IsSpace(LowerChar(r[i]));
    var e := ExportName(name);
    assert e[|e| - |"-template.json"|..] == "-template.json";
  }

  /**
   * The slug, run by run: the part before the first `\s` run is lower-cased,
   * the run becomes one `-`, and the rest of the name is slugged on its own.
   * With `SlugWithoutSpaces` this fixes the slug of every name.
   */
  lemma SlugFirstRun(a: string, sp: string, b: string)
    requires forall i :: 0 <= i < |a| ==> !IsSpace(a[i])
    requires sp != [] && forall i :: 0 <= i < |sp| ==> IsSpace(sp[i])
    requires b == [] || !IsSpace(b[0])
    ensures Slug(a + sp + b) == ToLower(a) + "-" + Slug(b)
  {
    SpaceRunsFirstRun(a, sp, b, '-');
    ToLowerConcat(a + ['-'], ReplaceSpaceRuns(b, '-'));
    ToLowerConcat(a, ['-']);
  }

  /** A name without `\s` is only lower-cased. */
  lemma SlugWithoutSpaces(name: string)
    requires forall i :: 0 <= i < |name| ==> !IsSpace(name[i])
    ensures Slug(name) == ToLower(name)
  {
    SpaceRunsIdentity(name, '-');
  }

  // ---------------------------------------------------------------------------
  // The template store

  /** Each parsed file holds the template whose id names it, as the extension writes them. */
  ghost predicate NamedById(dir: map<string, Entry>)
  {
    forall f :: f in dir && dir[f].Parsed? ==> f == FileName(dir[f].template.id)
  }

  class TemplateStore {
    /** The in-memory list the commands offer. */
    var templates: seq<Template>
    /** The templates directory. */
    var dir: map<string, Entry>

    /** The constructor loads the directory. */
    constructor(initial: map<string, Entry>, listing: Option<seq<string>>)
      ensures dir == initial && templates == LoadedTemplates(initial, listing)
    {
      dir := initial;
      templates := LoadedTemplates(initial, listing);
    }

    /** `loadTemplates`: the list is replaced by what the directory holds. */
    method LoadTemplates(listing: Option<seq<string>>)
      modifies this
      ensures dir == old(dir) && templates == LoadedTemplates(dir, listing)
    {
      templates := LoadedTemplates(dir, listing);
    }

    /** `_saveTemplate`: the file `<id>.json` is written and the template appended; a failed write changes nothing. */
    method StoreTemplate(t: Template, writeOk: bool)
      modifies this
      ensures writeOk ==> dir == old(dir)[FileName(t.id) := Parsed(t)] && templates == old(templates) + [t]
      ensures !writeOk ==> dir == old(dir) && templates == old(templates)
      ensures NamedById(old(dir)) ==> NamedById(dir)
    {
      if writeOk {
        dir := dir[FileName(t.id) := Parsed(t)];
        templates := templates + [t];
      }
    }

    /** `saveTemplate`: builds the template from the answers and stores it. */
    method SaveTemplate(content: string, name: Option<string>, description: Option<string>,
                        tagsInput: Option<string>, languageId: string, now: nat, createdAt: string,
                        writeOk: bool) returns (request: SaveRequest)
      modifies this
      ensures request == BuildTemplate(content, name, description, tagsInput, languageId, now, createdAt)
      ensures request.Build? && writeOk ==>
        dir == old(dir)[FileName(request.template.id) := Parsed(request.template)]
        && templates == old(templates) + [request.template]
      ensures !(request.Build? && writeOk) ==> dir == old(dir) && templates == old(templates)
      ensures NamedById(old(dir)) ==> NamedById(dir)
    {
      request := BuildTemplate(content, name, description, tagsInput, languageId, now, createdAt);
      if request.Build? {
        StoreTemplate(request.template, writeOk);
      }
    }

    /** `importTemplate`: a valid file is stored under a fresh id and time stamp. */
    method ImportTemplate(file: ImportFile, now: nat, createdAt: string, writeOk: bool)
      returns (outcome: Option<Result<Template>>)
      modifies this
      ensures outcome == ImportedTemplate(file, now, createdAt)
      ensures outcome.Some? && outcome.value.Ok? && writeOk ==>
        dir == old(dir)[FileName(outcome.value.value.id) := Parsed(outcome.value.value)]
        && templates == old(templates) + [outcome.value.value]
      ensures !(outcome.Some? && outcome.value.Ok? && writeOk) ==> dir == old(dir) && templates == old(templates)
      ensures NamedById(old(dir)) ==> NamedById(dir)
    {
      outcome := ImportedTemplate(file, now, createdAt);
      if outcome.Some? && outcome.value.Ok? {
        StoreTemplate(outcome.value.value, writeOk);
      }
    }

    /**
     * `editTemplate`: when the edited document is saved (`edited` is its
     * text; `None` when the five minutes pass), the chosen template's file is
     * rewritten with the new content and the list reloaded. The write is not
     * guarded: when it fails (`writeOk` false) the command ends there, before
     * the reload.
     */
    method EditTemplate(choice: Option<nat>, edited: Option<string>, writeOk: bool,
                        listing: Option<seq<string>>)
      requires choice.Some? ==> choice.value < |templates|
      modifies this
      ensures old(templates) == [] || choice.None? || edited.None? || !writeOk ==>
        old(templates) == templates && old(dir) == dir
      ensures old(templates) != [] && choice.Some? && edited.Some? && writeOk ==>
        var t := old(templates)[choice.value];
        dir == old(dir)[FileName(t.id) := Parsed(t.(content := edited.value))]
        && templates == LoadedTemplates(dir, listing)
      ensures NamedById(old(dir)) ==> NamedById(dir)
    {
      if templates != [] && choice.Some? && edited.Some? && writeOk {
        var t := templates[choice.value];
        dir := dir[FileName(t.id) := Parsed(t.(content := edited.value))];
        LoadTemplates(listing);
      }
    }

    /**
     * `deleteTemplate`: once confirmed, the chosen template's file is removed
     * and the list reloaded; removing a file that is not there throws and
     * ends the command.
     */
    method DeleteTemplate(choice: Option<nat>, confirmed: bool, listing: Option<seq<string>>)
      requires choice.Some? ==> choice.value < |templates|
      modifies this
      ensures old(templates) == [] || choice.None? || !confirmed
              || FileName(old(templates)[choice.value].id) !in old(dir) ==>
        old(templates) == templates && old(dir) == dir
      ensures old(templates) != [] && choice.Some? && confirmed
              && FileName(old(templates)[choice.value].id) in old(dir) ==>
        var t := old(templates)[choice.value];
        dir == old(dir) - {FileName(t.id)}
        && templates == LoadedTemplates(dir, listing)
        && (NamedById(old(dir)) ==> forall i :: 0 <= i < |templates| ==> templates[i].id != t.id)
      ensures NamedById(old(dir)) ==> NamedById(dir)
    {
      if templates != [] && choice.Some? && confirmed && FileName(templates[choice.value].id) in dir {
        var t := templates[choice.value];
        ghost var before := dir;
        dir := dir - {FileName(t.id)};
        LoadTemplates(listing);
        if NamedById(before) {
          DeletedIdGone(before, t.id, listing);
        }
      }
    }
  }

  /** With files named by their id, reloading after removing `<id>.json` finds no template with that id. */
  lemma DeletedIdGone(dir: map<string, Entry>, id: string, listing: Option<seq<string>>)
    requires NamedById(dir)
    ensures var ts := LoadedTemplates(dir - {FileName(id)}, listing);
      forall i :: 0 <= i < |ts| ==> ts[i].id != id
  {
    var d := dir - {FileName(id)};
    var ts := LoadedTemplates(d, listing);
    if listing.Some? {
      var files := JsonFiles(listing.value);
      var parsed := ReadAll(d, files);
      if parsed.Some? {
        forall i | 0 <= i < |ts|
          ensures ts[i].id != id
        {
          assert files[i] in d && d[files[i]].Parsed? && ts[i] == d[files[i]].template;
          assert files[i] == FileName(ts[i].id);
        }
      }
    }
  }
}
