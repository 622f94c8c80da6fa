/**
 * The favicon and HTML step of the build (build/generateHtml.ts): deciding whether
 * anything needs regenerating, the favicon configuration the build mode selects,
 * writing every generated favicon file (crushed first in a one-off build when it is a
 * PNG) with its two counters, and writing the `index.html` shell last. The favicon
 * generator, the PNG test, the PNG crusher, the HTML minifier and `path.join` are
 * parameters.
 */
module HtmlGeneration {
  import opened Common

  type Bytes = seq<bv8>

  /** The page's metadata: title, description, and the developer's name and URL. */
  datatype Metadata = Metadata(title: string, description: string, developerName: string, developerUrl: string)

  /** Lines 36-41: regenerate when the icon changed or any of the four metadata fields did. */
  predicate ShouldRegenerate(createdOrModifiedFiles: set<string>, iconPath: string, oldMetadata: Metadata, newMetadata: Metadata) {
    || iconPath in createdOrModifiedFiles
    || newMetadata.title != oldMetadata.title
    || newMetadata.description != oldMetadata.description
    || newMetadata.developerName != oldMetadata.developerName
    || newMetadata.developerUrl != oldMetadata.developerUrl
  }

  /** Since the four fields are the whole of the metadata, the test is "icon changed or metadata changed". */
  lemma ShouldRegenerateIff(createdOrModifiedFiles: set<string>, iconPath: string, oldMetadata: Metadata, newMetadata: Metadata)
    ensures ShouldRegenerate(createdOrModifiedFiles, iconPath, oldMetadata, newMetadata) <==>
      iconPath in createdOrModifiedFiles || oldMetadata != newMetadata
  {
  }

  /** The icon sets the generator is asked for. */
  datatype IconSets = IconSets(
    android: bool, appleIcon: bool, appleStartup: bool, coast: bool,
    favicons: bool, firefox: bool, windows: bool, yandex: bool)

  /** Lines 56-65: browser favicons always; every other set only in a one-off build. */
  function RequestedIcons(buildName: string): (r: IconSets)
    ensures r.favicons
    ensures r.android == r.appleIcon == r.appleStartup == r.coast == r.firefox == r.windows == r.yandex == (buildName == "oneOff")
  {
    var full := buildName == "oneOff";
    IconSets(full, full, full, full, true, full, full, full)
  }

  /** The configuration handed to the favicon generator (lines 43-66). */
  datatype Configuration = Configuration(
    appName: string, appDescription: string, developerName: string, developerURL: string,
    background: string, themeColor: string, path: string, display: string, orientation: string,
    startUrl: string, version: string, logging: bool, icons: IconSets)

  function FaviconConfiguration(buildName: string, metadata: Metadata): (r: Configuration)
    ensures r.appName == metadata.title && r.appDescription == metadata.description
    ensures r.developerName == metadata.developerName && r.developerURL == metadata.developerUrl
    ensures r.icons == RequestedIcons(buildName)
  {
    Configuration(
      metadata.title, metadata.description, metadata.developerName, metadata.developerUrl,
      "#000", "#000", "", "standalone", "landscape", "", "1.0", false, RequestedIcons(buildName))
  }

  /** One generated file: its name and contents. */
  datatype FaviconFile = FaviconFile(name: string, contents: Bytes)

  /** What the generator returns: images, other files, and the fragments for the page's head. */
  datatype FaviconResponse = FaviconResponse(images: seq<FaviconFile>, files: seq<FaviconFile>, html: seq<string>)

  /** What a written file holds: the bytes of a favicon file, or the text of the page. */
  datatype FileContents = Binary(bytes: Bytes) | Text(text: string)

  /**
   * The external services: the favicon generator (`Err` when its promise rejects), the
   * PNG test, the PNG crusher, the HTML minifier and `path.join`.
   */
  datatype Generators = Generators(
    favicons: (string, Configuration) -> Result<FaviconResponse, string>,
    isPng: Bytes -> bool,
    crush: Bytes -> Bytes,
    minify: string -> string,
    join: (string, string) -> string)

  /** Lines 74-82: in a one-off build a PNG is replaced by its crushed form; everything else is kept. */
  function Prepared(gen: Generators, buildName: string, file: FaviconFile): (r: FaviconFile)
    ensures r.name == file.name
    ensures buildName != "oneOff" || !gen.isPng(file.contents) ==> r == file
    ensures buildName == "oneOff" && gen.isPng(file.contents) ==> r.contents == gen.crush(file.contents)
  {
    if buildName == "oneOff" && gen.isPng(file.contents) then file.(contents := gen.crush(file.contents)) else file
  }

  /** Line 68: the files to write, images first. */
  function Entries(response: FaviconResponse): seq<FaviconFile> {
    response.images + response.files
  }

  /** The write of one favicon file (lines 84-87). */
  function FaviconWrite(gen: Generators, buildName: string, destination: string, file: FaviconFile): (string, FileContents) {
    (gen.join(destination, file.name), Binary(Prepared(gen, buildName, file).contents))
  }

  /** The favicon writes in submission order. */
  function FaviconWrites(gen: Generators, buildName: string, destination: string, files: seq<FaviconFile>): (r: seq<(string, FileContents)>)
    ensures |r| == |files|
    ensures forall i :: 0 <= i < |files| ==> r[i] == FaviconWrite(gen, buildName, destination, files[i])
  {
    seq(|files|, i requires 0 <= i < |files| => FaviconWrite(gen, buildName, destination, files[i]))
  }

  /** `Array.prototype.join("")`. */
  function Concat(parts: seq<string>): (r: string)
  {
    if parts == [] then "" else parts[0] + Concat(parts[1..])
  }

  lemma {:induction false} ConcatSplit(parts: seq<string>, i: nat)
    requires i <= |parts|
    ensures Concat(parts) == Concat(parts[..i]) + Concat(parts[i..])
  {
    if i > 0 {
      ConcatSplit(parts[1..], i - 1);
      assert parts[1..][..i - 1] == parts[1..i];
      assert parts[1..][i - 1..] == parts[i..];
      assert parts[..i][1..] == parts[1..i];
    } else {
      assert parts[i..] == parts;
    }
  }

  /** Every head fragment appears whole, in order, at the end of the ones before it. */
  lemma FragmentsInOrder(parts: seq<string>, i: nat)
    requires i < |parts|
    ensures var at := |Concat(parts[..i])|;
      at + |parts[i]| <= |Concat(parts)| && Concat(parts)[at..at + |parts[i]|] == parts[i]
  {
    ConcatSplit(parts, i);
    assert parts[i..][1..] == parts[i + 1..];
  }

  // The fixed text of the page (lines 97-106), around the title, the head fragments and the body.
  const ShellHead := "<!DOCTYPE html>\n    <html>\n      <head>\n        <meta charset=\"UTF-8\">\n        " + "<title>"
  const ShellAfterTitle := "</title>" + "\n        <meta name=\"viewport\" content=\"initial-scale=1, minimum-scale=1, maximum-scale=1, width=device-width, height=device-height, user-scalable=no\">\n        "
  const ShellAfterHead := "\n      </head>\n      "
  const ShellEnd := "\n    </html>"

  function Shell(title: string, fragments: seq<string>, body: string): string {
    ShellHead + title + ShellAfterTitle + Concat(fragments) + ShellAfterHead + body + ShellEnd
  }

  /**
   * Where the parts sit in the page: the title right after `<title>` and right before
   * `</title>`, then the viewport line, then every head fragment in order before
   * `</head>`, then the body before the closing `</html>`.
   */
  lemma ShellLayout(title: string, fragments: seq<string>, body: string)
    ensures var page, head := Shell(title, fragments, body), Concat(fragments);
      var t := |ShellHead|;
      var h := t + |title| + |ShellAfterTitle|;
      var b := h + |head| + |ShellAfterHead|;
      && |page| == b + |body| + |ShellEnd|
      && page[..t] == ShellHead
      && page[t..t + |title|] == title
      && page[t + |title|..h] == ShellAfterTitle
      && page[h..h + |head|] == head
      && page[h + |head|..b] == ShellAfterHead
      && page[b..b + |body|] == body
      && page[b + |body|..] == ShellEnd
  {
    var head := Concat(fragments);
    Layout(ShellHead, title, ShellAfterTitle, head, ShellAfterHead, body, ShellEnd);
    assert Shell(title, fragments, body) == ShellHead + title + ShellAfterTitle + head + ShellAfterHead + body + ShellEnd;
  }

  /** Each of seven concatenated strings is found where it was put. */
  lemma Layout(s0: string, s1: string, s2: string, s3: string, s4: string, s5: string, s6: string)
    ensures var page := s0 + s1 + s2 + s3 + s4 + s5 + s6;
      var e0 := |s0|; var e1 := e0 + |s1|; var e2 := e1 + |s2|; var e3 := e2 + |s3|;
      var e4 := e3 + |s4|; var e5 := e4 + |s5|;
      && |page| == e5 + |s6|
      && page[..e0] == s0 && page[e0..e1] == s1 && page[e1..e2] == s2 && page[e2..e3] == s3
      && page[e3..e4] == s4 && page[e4..e5] == s5 && page[e5..] == s6
  {
    var p1 := s0 + s1;
    Slices(s0, s1, []);
    var p2 := p1 + s2;
    Slices(p1, s2, []);
    var p3 := p2 + s3;
    Slices(p2, s3, []);
    var p4 := p3 + s4;
    Slices(p3, s4, []);
    var p5 := p4 + s5;
    Slices(p4, s5, []);
    Slices(p5, s6, []);
    assert p5[..|p4|] == p4 && p4[..|p3|] == p3 && p3[..|p2|] == p2 && p2[..|p1|] == p1;
  }

  /** The middle part of a concatenation of three strings is found where it was put. */
  lemma Slices(x: string, y: string, z: string)
    ensures var s := x + y + z;
      s[..|x|] == x && s[|x|..|x| + |y|] == y && s[|x| + |y|..] == z
  {
  }

  /** The title sits between the `<title>` and `</title>` tags. */
  lemma TitleTags()
    ensures EndsWith(ShellHead, "<title>") && StartsWith(ShellAfterTitle, "</title>")
  {
    var head := "<!DOCTYPE html>\n    <html>\n      <head>\n        <meta charset=\"UTF-8\">\n        ";
    Slices(head, "<title>", []);
    Slices("</title>", ShellAfterTitle[8..], []);
  }

  /** Lines 107-151: the page is minified only in a one-off build. */
  function Page(gen: Generators, buildName: string, title: string, fragments: seq<string>, body: string): (r: string)
    ensures buildName == "oneOff" ==> r == gen.minify(Shell(title, fragments, body))
    ensures buildName != "oneOff" ==> r == Shell(title, fragments, body)
  {
    var html := Shell(title, fragments, body);
    if buildName == "oneOff" then gen.minify(html) else html
  }

  /** The inputs of the step. */
  datatype Request = Request(
    createdOrModifiedFiles: set<string>,
    buildName: string,
    iconPath: string,
    destination: string,
    oldMetadata: Metadata,
    newMetadata: Metadata,
    body: string)

  /**
   * Every file write of the step, in order, or the generator's failure: nothing when no
   * regeneration is needed; otherwise each favicon file, then `index.html`.
   */
  function Writes(gen: Generators, req: Request): Result<seq<(string, FileContents)>, string> {
    if !ShouldRegenerate(req.createdOrModifiedFiles, req.iconPath, req.oldMetadata, req.newMetadata) then Ok([])
    else
      match gen.favicons(req.iconPath, FaviconConfiguration(req.buildName, req.newMetadata))
      case Err(reason) => Err(reason)
      case Ok(response) =>
        Ok(FaviconWrites(gen, req.buildName, req.destination, Entries(response))
           + [(gen.join(req.destination, "index.html"),
               Text(Page(gen, req.buildName, req.newMetadata.title, response.html, req.body)))])
  }

  /**
   * What is written, and in what order: no write without regeneration; otherwise one
   * write per image and then per other file, to `destination/<name>`, with crushed
   * contents exactly for PNGs in a one-off build, followed last by `index.html`.
   */
  lemma WritesOrder(gen: Generators, req: Request)
    ensures !ShouldRegenerate(req.createdOrModifiedFiles, req.iconPath, req.oldMetadata, req.newMetadata) ==>
      Writes(gen, req) == Ok([])
    ensures Writes(gen, req).Ok? && ShouldRegenerate(req.createdOrModifiedFiles, req.iconPath, req.oldMetadata, req.newMetadata) ==>
      var response := gen.favicons(req.iconPath, FaviconConfiguration(req.buildName, req.newMetadata)).value;
      var entries, ws := Entries(response), Writes(gen, req).value;
      && |ws| == |response.images| + |response.files| + 1
      && (forall i :: 0 <= i < |entries| ==>
            && ws[i].0 == gen.join(req.destination, entries[i].name)
            && ws[i].1 == Binary(if req.buildName == "oneOff" && gen.isPng(entries[i].contents)
                                 then gen.crush(entries[i].contents) else entries[i].contents))
      && (forall i :: 0 <= i < |response.images| ==> entries[i] == response.images[i])
      && (forall i :: 0 <= i < |response.files| ==> entries[|response.images| + i] == response.files[i])
      && ws[|ws| - 1] == (gen.join(req.destination, "index.html"),
                          Text(Page(gen, req.buildName, req.newMetadata.title, response.html, req.body)))
  {
  }

  /** The outcome of the step: whether it regenerated, and the two counters and the total. */
  datatype Progress = Progress(regenerated: bool, compressed: nat, written: nat, total: nat)

  /** The destination directory as the step's file writes change it. */
  class Site {
    var files: map<string, FileContents>
    /** Every write so far, in order. */
    var log: seq<(string, FileContents)>
    const gen: Generators

    constructor(gen: Generators, files: map<string, FileContents>)
      ensures this.gen == gen && this.files == files && log == []
    {
      this.gen := gen;
      this.files := files;
      log := [];
    }

    method WriteFile(path: string, contents: FileContents)
      modifies this
      ensures files == old(files)[path := contents]
      ensures log == old(log) + [(path, contents)]
    {
      files := files[path := contents];
      log := log + [(path, contents)];
    }

    /**
     * The default export of build/generateHtml.ts. The favicon files are written one
     * after another in submission order (the source starts them together and awaits
     * them in that order).
     */
    method Generate(req: Request) returns (r: Result<Progress, string>)
      modifies this
      ensures Writes(gen, req).Err? <==> r.Err?
      ensures r.Err? ==> r.error == Writes(gen, req).error && files == old(files) && log == old(log)
      ensures r.Ok? ==>
        && log == old(log) + Writes(gen, req).value
        && files == Overlay(old(files), Writes(gen, req).value)
        && r.value.regenerated == ShouldRegenerate(req.createdOrModifiedFiles, req.iconPath, req.oldMetadata, req.newMetadata)
        && r.value.compressed == r.value.written == r.value.total
        && r.value.total == (if r.value.regenerated then |Writes(gen, req).value| - 1 else 0)
    {
      if !ShouldRegenerate(req.createdOrModifiedFiles, req.iconPath, req.oldMetadata, req.newMetadata) {
        return Ok(Progress(false, 0, 0, 0));
      }
      var response := gen.favicons(req.iconPath, FaviconConfiguration(req.buildName, req.newMetadata));
      if response.Err? {
        return Err(response.error);
      }
      var entries := Entries(response.value);
      var compressed, written := WriteFavicons(req.buildName, req.destination, entries);
      var html := Shell(req.newMetadata.title, response.value.html, req.body);
      if req.buildName == "oneOff" {
        html := gen.minify(html);
      }
      WriteFile(gen.join(req.destination, "index.html"), Text(html));
      ghost var ws := FaviconWrites(gen, req.buildName, req.destination, entries) + [(gen.join(req.destination, "index.html"), Text(html))];
      assert ws[..|ws| - 1] == FaviconWrites(gen, req.buildName, req.destination, entries);
      r := Ok(Progress(true, compressed, written, |entries|));
    }

    /** Lines 69-94: every favicon file written in turn, counting compressions and writes. */
    method WriteFavicons(buildName: string, destination: string, entries: seq<FaviconFile>) returns (compressed: nat, written: nat)
      modifies this
      ensures compressed == written == |entries|
      ensures log == old(log) + FaviconWrites(gen, buildName, destination, entries)
      ensures files == Overlay(old(files), FaviconWrites(gen, buildName, destination, entries))
    {
      ghost var expected := FaviconWrites(gen, buildName, destination, entries);
      compressed, written := 0, 0;
      for i := 0 to |entries|
        invariant compressed == written == i
        invariant log == old(log) + expected[..i]
        invariant files == Overlay(old(files), expected[..i])
      {
        var file := entries[i];
        if buildName == "oneOff" && gen.isPng(file.contents) {
          file := file.(contents := gen.crush(file.contents));
        }
        compressed := compressed + 1;
        WriteFile(gen.join(destination, file.name), Binary(file.contents));
        written := written + 1;
        assert expected[..i + 1] == expected[..i] + [expected[i]];
      }
      assert expected[..|entries|] == expected;
    }
  }

  /**
   * After a regeneration the page is the last thing written, so `index.html` holds it
   * whatever the favicon files are called; a favicon file not overwritten by a later one
   * of the same name holds its prepared contents.
   */
  lemma WrittenFiles(gen: Generators, req: Request, before: map<string, FileContents>)
    requires Writes(gen, req).Ok? && ShouldRegenerate(req.createdOrModifiedFiles, req.iconPath, req.oldMetadata, req.newMetadata)
    ensures var response := gen.favicons(req.iconPath, FaviconConfiguration(req.buildName, req.newMetadata)).value;
      var after := Overlay(before, Writes(gen, req).value);
      && gen.join(req.destination, "index.html") in after
      && after[gen.join(req.destination, "index.html")] ==
           Text(Page(gen, req.buildName, req.newMetadata.title, response.html, req.body))
  {
    var ws := Writes(gen, req).value;
    var key := gen.join(req.destination, "index.html");
    OverlayLastWins(before, ws, key);
    assert IsLastWrite(ws, |ws| - 1, key);
  }
}
