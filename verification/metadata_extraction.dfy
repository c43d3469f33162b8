/** The part of `ExtractEXIFDataFromAttachment` that runs after the image has
    been downloaded and parsed: pick the second PNG directory, render its
    tags, and map failures to a null result. The download and the binary
    parser are not modelled; their combined outcome is an input. */
module MetadataExtraction {
  import opened Wrappers

  /** Only whether a directory is a PNG chunk directory matters to the bot. */
  datatype DirectoryKind = Png | OtherKind

  /** A metadata tag. Its description may be null, which C# string
      interpolation renders as the empty string. */
  datatype Tag = Tag(name: string, description: Option<string>)

  /** A parsed metadata directory with its tags in parser order. */
  datatype Directory = Directory(kind: DirectoryKind, tags: seq<Tag>)

  /** The text returned when the selected directory has no tags. */
  const NoExifMessage: string := "No EXIF data found."

  /** `directories.OfType<PngDirectory>()`: the PNG directories, in order. */
  function PngDirectories(dirs: seq<Directory>): (r: seq<Directory>)
    ensures |r| <= |dirs|
    ensures forall d :: d in r <==> d in dirs && d.kind == Png
  {
    if dirs == [] then []
    else (if dirs[0].kind == Png then [dirs[0]] else []) + PngDirectories(dirs[1..])
  }

  /** Filtering distributes over concatenation, so the PNG directories keep
      their relative order. */
  lemma {:induction false} PngDirectoriesAppend(a: seq<Directory>, b: seq<Directory>)
    ensures PngDirectories(a + b) == PngDirectories(a) + PngDirectories(b)
    decreases |a|
  {
    if a != [] {
      var ab := a + b;
      var head := if a[0].kind == Png then [a[0]] else [];
      assert ab[0] == a[0] && ab[1..] == a[1..] + b;
      PngDirectoriesAppend(a[1..], b);
      calc {
        PngDirectories(ab);
        head + PngDirectories(a[1..] + b);
        head + (PngDirectories(a[1..]) + PngDirectories(b));
        (head + PngDirectories(a[1..])) + PngDirectories(b);
        PngDirectories(a) + PngDirectories(b);
      }
    } else {
      assert a + b == b;
    }
  }

  /** One line of output: `{tag.Name}: {tag.Description}\n`. */
  function FormatTag(t: Tag): string
  {
    t.name + ": " + t.description.GetOr("") + "\n"
  }

  /** The lines of all tags, in order; the specification of the loop in
      `ExtractExifData`. */
  function FormatTags(tags: seq<Tag>): string
  {
    if tags == [] then "" else FormatTags(tags[..|tags| - 1]) + FormatTag(tags[|tags| - 1])
  }

  /** Rendering a concatenation of tag lists concatenates their renderings. */
  lemma {:induction false} FormatTagsAppend(a: seq<Tag>, b: seq<Tag>)
    ensures FormatTags(a + b) == FormatTags(a) + FormatTags(b)
    decreases |b|
  {
    if b == [] {
      assert a + b == a;
    } else {
      var b', last := b[..|b| - 1], b[|b| - 1];
      var ab := a + b;
      assert ab[..|ab| - 1] == a + b' && ab[|ab| - 1] == last;
      FormatTagsAppend(a, b');
      calc {
        FormatTags(ab);
        FormatTags(a + b') + FormatTag(last);
        (FormatTags(a) + FormatTags(b')) + FormatTag(last);
        FormatTags(a) + (FormatTags(b') + FormatTag(last));
        FormatTags(a) + FormatTags(b);
      }
    }
  }

  /** The rendering is empty exactly when there are no tags; otherwise it
      ends with a newline. */
  lemma FormatTagsEmptyIff(tags: seq<Tag>)
    ensures FormatTags(tags) == "" <==> tags == []
    ensures tags != [] ==> |FormatTags(tags)| > 0 && FormatTags(tags)[|FormatTags(tags)| - 1] == '\n'
  {
  }

  /** How many newline characters a string holds. */
  function NewlineCount(s: string): nat
  {
    if s == [] then 0 else (if s[0] == '\n' then 1 else 0) + NewlineCount(s[1..])
  }

  lemma {:induction false} NewlineCountAppend(a: string, b: string)
    ensures NewlineCount(a + b) == NewlineCount(a) + NewlineCount(b)
    decreases |a|
  {
    if a != [] {
      assert (a + b)[1..] == a[1..] + b;
      NewlineCountAppend(a[1..], b);
    } else {
      assert a + b == b;
    }
  }

  /** A tag whose name and description hold no line break. */
  predicate SingleLine(t: Tag)
  {
    '\n' !in t.name && '\n' !in t.description.GetOr("")
  }

  lemma {:induction false} NewlineCountFree(s: string)
    requires '\n' !in s
    ensures NewlineCount(s) == 0
    decreases |s|
  {
    if s != [] {
      assert s[0] != '\n';
      NewlineCountFree(s[1..]);
    }
  }

  /** When no tag text contains a line break, the rendering has exactly one
      line per tag. */
  lemma {:induction false} FormatTagsLineCount(tags: seq<Tag>)
    requires forall i :: 0 <= i < |tags| ==> SingleLine(tags[i])
    ensures NewlineCount(FormatTags(tags)) == |tags|
    decreases |tags|
  {
    if tags != [] {
      var t := tags[|tags| - 1];
      assert SingleLine(t);
      FormatTagsLineCount(tags[..|tags| - 1]);
      NewlineCountFree(t.name);
      NewlineCountFree(t.description.GetOr(""));
      NewlineCountFree(": ");
      NewlineCountAppend(t.name, ": ");
      NewlineCountAppend(t.name + ": ", t.description.GetOr(""));
      NewlineCountAppend(t.name + ": " + t.description.GetOr(""), "\n");
      NewlineCountAppend(FormatTags(tags[..|tags| - 1]), FormatTag(t));
    }
  }

  /** The extractor's result for a given fetch-and-parse outcome: null
      (`None`) when the download or parse failed or fewer than two PNG
      directories exist, the sentinel when the second one has no tags, its
      rendered tags otherwise. */
  function ExtractionOf(fetched: Option<seq<Directory>>): (r: Option<string>)
    ensures r != Some("")
  {
    match fetched
    case None => None
    case Some(dirs) =>
      var pngs := PngDirectories(dirs);
      if |pngs| < 2 then None
      else
        var text := FormatTags(pngs[1].tags);
        if text == "" then Some(NoExifMessage) else Some(text)
  }

  /** `ExtractEXIFDataFromAttachment` after the download: selects the second
      PNG directory, appends one line per tag, and substitutes the sentinel
      for an empty result. Every failure inside the `try` becomes `None`. */
  method ExtractExifData(fetched: Option<seq<Directory>>) returns (r: Option<string>)
    ensures r == ExtractionOf(fetched)
    ensures r != Some("")
  {
    if fetched.None? {
      return None;
    }
    var pngs := PngDirectories(fetched.value);
    if |pngs| < 2 {
      // ToArray()[1] throws IndexOutOfRangeException, caught below it
      return None;
    }
    var tags := pngs[1].tags;
    var exifData := "";
    var i := 0;
    while i < |tags|
      invariant 0 <= i <= |tags|
      invariant exifData == FormatTags(tags[..i])
    {
      assert tags[..i + 1][..i] == tags[..i];
      exifData := exifData + FormatTag(tags[i]);
      i := i + 1;
    }
    assert tags[..|tags|] == tags;
    if exifData == "" {
      return Some(NoExifMessage);
    }
    return Some(exifData);
  }

  /** The extractor yields null exactly when the fetch or parse failed or
      the parse produced fewer than two PNG directories. */
  lemma ExtractionNoneIff(fetched: Option<seq<Directory>>)
    ensures ExtractionOf(fetched).None? <==>
      fetched.None? || |PngDirectories(fetched.value)| < 2
  {
  }

  /** The sentinel is returned exactly when the second PNG directory has no
      tags: no rendering of real tags can equal it, since a rendering ends
      with a newline and the sentinel with a full stop. */
  lemma ExtractionSentinelIff(fetched: Option<seq<Directory>>)
    ensures ExtractionOf(fetched) == Some(NoExifMessage) <==>
      fetched.Some? && |PngDirectories(fetched.value)| >= 2 &&
      PngDirectories(fetched.value)[1].tags == []
  {
    if fetched.Some? && |PngDirectories(fetched.value)| >= 2 {
      var tags := PngDirectories(fetched.value)[1].tags;
      FormatTagsEmptyIff(tags);
      if tags != [] {
        assert NoExifMessage[|NoExifMessage| - 1] == '.';
        assert FormatTags(tags) != NoExifMessage;
      }
    }
  }

  /** When the second PNG directory has tags, the result is their rendering,
      one line per tag if no tag text holds a line break. */
  lemma ExtractionSuccess(dirs: seq<Directory>)
    requires |PngDirectories(dirs)| >= 2 && PngDirectories(dirs)[1].tags != []
    ensures ExtractionOf(Some(dirs)) == Some(FormatTags(PngDirectories(dirs)[1].tags))
    ensures (forall t :: t in PngDirectories(dirs)[1].tags ==> SingleLine(t)) ==>
      NewlineCount(ExtractionOf(Some(dirs)).value) == |PngDirectories(dirs)[1].tags|
  {
    var tags := PngDirectories(dirs)[1].tags;
    FormatTagsEmptyIff(tags);
    if forall t :: t in tags ==> SingleLine(t) {
      FormatTagsLineCount(tags);
    }
  }

  /** Directories of other kinds are ignored wherever they appear. */
  lemma ExtractionIgnoresOtherKinds(a: seq<Directory>, d: Directory, b: seq<Directory>)
    requires d.kind != Png
    ensures ExtractionOf(Some(a + [d] + b)) == ExtractionOf(Some(a + b))
  {
    PngDirectoriesAppend(a + [d], b);
    PngDirectoriesAppend(a, [d]);
    PngDirectoriesAppend(a, b);
    assert PngDirectories([d]) == [];
  }

  /** Only the second PNG directory is read: the first one and any after the
      second do not affect the result. */
  lemma ExtractionReadsSecondOnly(first: Directory, second: Directory, rest: seq<Directory>,
                                  first': Directory, rest': seq<Directory>)
    requires first.kind == Png && first'.kind == Png && second.kind == Png
    ensures ExtractionOf(Some([first, second] + rest)) == ExtractionOf(Some([first', second] + rest'))
  {
    PngDirectoriesAppend([first, second], rest);
    PngDirectoriesAppend([first', second], rest');
    assert [first, second][1..] == [second];
    assert [first', second][1..] == [second];
  }

  /** A PNG whose second text directory holds Title=Sunset and Author=Jane
      renders as two lines. */
  lemma ExtractionExample(header: Directory)
    requires header.kind == Png
    ensures ExtractionOf(Some([header, Directory(Png, [Tag("Title", Some("Sunset")), Tag("Author", Some("Jane"))])]))
      == Some("Title: Sunset\nAuthor: Jane\n")
  {
    var dirs := [header, Directory(Png, [Tag("Title", Some("Sunset")), Tag("Author", Some("Jane"))])];
    assert dirs == [header] + [dirs[1]];
    PngDirectoriesAppend([header], [dirs[1]]);
    assert PngDirectories(dirs) == dirs;
    var tags := dirs[1].tags;
    assert tags[..1] == [tags[0]];
    assert [tags[0]][..0] == [];
    assert FormatTags([tags[0]]) == "Title: Sunset\n";
    assert FormatTags(tags) == "Title: Sunset\n" + "Author: Jane\n";
    assert "Title: Sunset\n" + "Author: Jane\n" == "Title: Sunset\nAuthor: Jane\n";
    assert PngDirectories(dirs)[1].tags == tags;
  }
}
