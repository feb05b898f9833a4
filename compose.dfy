/**
 * The whole build: select the icon files from the directory listing, read
 * them, and compose the grid document. The directory listing and the readable
 * files are inputs; writing the result is left to the caller.
 */
module SkillIcons {
  import opened Wrappers
  import opened IconFilter
  import opened GridLayout
  import opened SvgDocument

  /** How one build ends. */
  datatype Outcome =
    | IconsDirMissing        // fatal: the icons directory does not exist
    | NoSvgFiles             // benign: nothing to compose, nothing is written
    | Unreadable(name: string) // fatal: an icon file could not be read
    | Written(doc: Document) // the document written to the output file

  /** `names[k]` is the first name that is not readable. */
  predicate FirstUnreadableAt(names: seq<string>, files: map<string, string>, k: int)
  {
    0 <= k < |names| && names[k] !in files && forall j :: 0 <= j < k ==> names[j] in files
  }

  /**
   * Reads the named files in order, stopping at the first one that cannot be
   * read; `files` maps each readable file name to its text.
   */
  function ReadIcons(names: seq<string>, files: map<string, string>): (r: Result<seq<string>, string>)
    ensures r.Ok? <==> AllReadable(names, files)
    ensures r.Ok? ==> |r.value| == |names|
    ensures r.Ok? ==> forall k :: 0 <= k < |names| ==> names[k] in files && r.value[k] == files[names[k]]
    ensures r.Err? ==> r.error in names && r.error !in files
    ensures r.Err? ==> exists k :: FirstUnreadableAt(names, files, k) && names[k] == r.error
  {
    if names == [] then Ok([])
    else if names[0] !in files then Err(names[0])
    else match ReadIcons(names[1..], files)
      case Ok(rest) => Ok([files[names[0]]] + rest)
      case Err(name) => Err(name)
  }

  predicate AllReadable(names: seq<string>, files: map<string, string>)
  {
    forall k :: 0 <= k < |names| ==> names[k] in files
  }

  /**
   * One run of the composer: `listing` is the icons directory's entries (None
   * when the directory does not exist).
   */
  function Generate(listing: Option<seq<string>>, files: map<string, string>): (o: Outcome)
    ensures o.IconsDirMissing? <==> listing.None?
    ensures o.NoSvgFiles? <==> listing.Some? && SvgFiles(listing.value) == []
    ensures o.Unreadable? ==> listing.Some? && o.name in SvgFiles(listing.value) && o.name !in files
    ensures o.Unreadable? ==> exists k :: FirstUnreadableAt(SvgFiles(listing.value), files, k) && SvgFiles(listing.value)[k] == o.name
    ensures o.Written? <==> listing.Some? && SvgFiles(listing.value) != [] && AllReadable(SvgFiles(listing.value), files)
  {
    match listing
    case None => IconsDirMissing
    case Some(entries) =>
      var names := SvgFiles(entries);
      if |names| == 0 then NoSvgFiles
      else match ReadIcons(names, files)
        case Err(name) => Unreadable(name)
        case Ok(icons) => Written(Render(icons, IconsPerLine))
  }

  /**
   * A written document has one group per icon file, in listing order, each
   * holding that file's text, inside a viewBox sized for that many icons.
   */
  lemma GeneratedDocument(entries: seq<string>, files: map<string, string>)
    requires Generate(Some(entries), files).Written?
    ensures var names, doc := SvgFiles(entries), Generate(Some(entries), files).doc;
      && |names| >= 1
      && |doc.groups| == |names|
      && (forall k :: 0 <= k < |names| ==> doc.groups[k].content == files[names[k]])
      && doc.header.viewBox == ViewBox(0, 0, RawWidth(|names|, IconsPerLine), RawHeight(|names|, IconsPerLine))
      && 16.0 * doc.header.width == 3.0 * doc.header.viewBox.width as real
      && 16.0 * doc.header.height == 3.0 * doc.header.viewBox.height as real
      && (forall k :: 0 <= k < |names| ==>
            doc.groups[k] == Group((k % IconsPerLine) * GridSize, (k / IconsPerLine) * GridSize, files[names[k]]))
      && WellPlaced(doc)
  {
    var names := SvgFiles(entries);
    var icons := ReadIcons(names, files).value;
    RenderWellPlaced(icons, IconsPerLine);
    assert Contents(Render(icons, IconsPerLine).groups) == icons;
  }
}
