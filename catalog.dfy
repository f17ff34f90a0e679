/** The aggregation loop of the quote route: one pass over the person folders
    under public/ that fills in missing metadata and builds the person list,
    the quote pool and the image pool. The directory listing and the file reads
    are inputs here: each folder arrives as a PersonFolder record. */
module Catalog {

  datatype Option<T> = None | Some(value: T)

  /** The object read from a folder's person.json. `id` and `name` are the two
      fields the route inspects; the other fields are carried along untouched.
      A file that is missing or is not valid JSON reads as the empty object. */
  datatype PersonData = PersonData(id: Option<string>, name: Option<string>, otherFields: seq<(string, string)>)

  /** One person folder: its directory name, its person.json, the `quotes` field
      of its quotes.json, and the listing of its images directory (None when
      that directory cannot be read). `quotes` is None whenever the route finds
      no truthy `quotes` field: the file is missing or is not valid JSON, it
      parses to a value other than an object or `null` (a number, a string, a
      boolean, an array), or the field is missing or falsy. A file that parses
      to `null` is not representable. */
  datatype PersonFolder = PersonFolder(
    name: string,
    personData: PersonData,
    quotes: Option<seq<string>>,
    imageFiles: Option<seq<string>>)

  /** An entry of the quote pool: the quote and the person it belongs to. */
  datatype QuoteItem = QuoteItem(quote: string, person: PersonData)

  /** An entry of the image pool: the public path of the image and its person. */
  datatype ImageItem = ImageItem(image: string, person: PersonData)

  /** JavaScript falsiness of a metadata field: absent, or the empty string.
      A field is truthy exactly when it holds a non-empty string. */
  predicate Falsy(v: Option<string>): (b: bool)
    ensures !b <==> v.Some? && |v.value| > 0
  {
    v == None || v == Some("")
  }

  /** The name given to a person without usable metadata: `Unknown (<folder>)`.
      It is never falsy, and the folder can be read back from it. */
  function UnknownName(folder: string): (r: string)
    ensures !Falsy(Some(r))
    ensures |r| == |folder| + 10 && r[9..|r| - 1] == folder
  {
    "Unknown (" + folder + ")"
  }

  /** The public path of an image file: `path.posix.join("/", folder, "images", file)`.
      Names that come from a directory listing are never "." or ".." and
      contain no "/", so the join adds nothing to plain concatenation. */
  function ImagePath(folder: string, file: string): string {
    "/" + folder + "/images/" + file
  }

  /** Where the parts of an image path sit: "/" at 0, the folder from 1, the
      "/" that opens "/images/" right after the folder, the file at the end. */
  lemma ImagePathLayout(folder: string, file: string)
    ensures |ImagePath(folder, file)| == |folder| + 9 + |file|
    ensures forall k :: 0 <= k < |folder| ==> ImagePath(folder, file)[k + 1] == folder[k]
    ensures ImagePath(folder, file)[|folder| + 1] == '/'
    ensures ImagePath(folder, file)[1..|folder| + 1] == folder
    ensures ImagePath(folder, file)[|folder| + 9..] == file
  {
    var p := ImagePath(folder, file);
    assert p == ("/" + folder) + ("/images/" + file);
    assert ("/images/" + file)[0] == '/';
  }

  /** Distinct images never share a path: for folder names without "/", as a
      directory listing gives them, the path determines the folder and the file. */
  lemma ImagePathInjective(folder: string, file: string, folder': string, file': string)
    requires '/' !in folder && '/' !in folder'
    requires ImagePath(folder, file) == ImagePath(folder', file')
    ensures folder == folder' && file == file'
  {
    ImagePathLayout(folder, file);
    ImagePathLayout(folder', file');
    if |folder| < |folder'| {
      assert false;
    } else if |folder'| < |folder| {
      assert false;
    }
  }

  /** person.json after the fallback: when `id` or `name` is falsy, both are
      overwritten from the folder name; otherwise the object is kept as read. */
  function FilledIn(f: PersonFolder): (p: PersonData)
    ensures Falsy(f.personData.id) || Falsy(f.personData.name) ==>
      p.id == Some(f.name) && p.name == Some(UnknownName(f.name))
    ensures !Falsy(f.personData.id) && !Falsy(f.personData.name) ==> p == f.personData
    ensures p.otherFields == f.personData.otherFields
    ensures !Falsy(p.name) && (f.name != "" ==> !Falsy(p.id))
  {
    var data := f.personData;
    if Falsy(data.id) || Falsy(data.name) then
      data.(id := Some(f.name), name := Some(UnknownName(f.name)))
    else
      data
  }

  /** The contribution of one folder to the quote pool: its quotes in file
      order, each tagged with the folder's person; nothing without a quotes list. */
  function QuotesOf(f: PersonFolder): (r: seq<QuoteItem>)
    ensures f.quotes == None ==> r == []
    ensures f.quotes != None ==> (|r| == |f.quotes.value| &&
      forall k :: 0 <= k < |r| ==> r[k].quote == f.quotes.value[k] && r[k].person == FilledIn(f))
  {
    match f.quotes
    case None => []
    case Some(qs) => seq(|qs|, k requires 0 <= k < |qs| => QuoteItem(qs[k], FilledIn(f)))
  }

  /** The contribution of one folder to the image pool: one entry per listed
      file, in listing order, pointing into the folder's images directory;
      nothing when the directory cannot be read. */
  function ImagesOf(f: PersonFolder): (r: seq<ImageItem>)
    ensures f.imageFiles == None ==> r == []
    ensures f.imageFiles != None ==> (|r| == |f.imageFiles.value| &&
      forall k :: 0 <= k < |r| ==>
        r[k].image == ImagePath(f.name, f.imageFiles.value[k]) && r[k].person == FilledIn(f))
  {
    match f.imageFiles
    case None => []
    case Some(files) => seq(|files|, k requires 0 <= k < |files| => ImageItem(ImagePath(f.name, files[k]), FilledIn(f)))
  }

  /** `allPersons` after the loop: one entry per folder, in folder order. */
  function Persons(folders: seq<PersonFolder>): seq<PersonData> {
    if folders == [] then []
    else Persons(folders[..|folders| - 1]) + [FilledIn(folders[|folders| - 1])]
  }

  /** A pool as the loop builds it: the contributions of the folders, one
      after the other, in folder order. */
  function Gather<T>(folders: seq<PersonFolder>, part: PersonFolder -> seq<T>): seq<T> {
    if folders == [] then []
    else Gather(folders[..|folders| - 1], part) + part(folders[|folders| - 1])
  }

  /** `quotes` after the loop. */
  function QuotePool(folders: seq<PersonFolder>): seq<QuoteItem> {
    Gather(folders, QuotesOf)
  }

  /** `images` after the loop. */
  function ImagePool(folders: seq<PersonFolder>): seq<ImageItem> {
    Gather(folders, ImagesOf)
  }

  /** Every folder contributes exactly one person, at its own position. */
  lemma {:induction false} PersonsInFolderOrder(folders: seq<PersonFolder>)
    ensures |Persons(folders)| == |folders|
    ensures forall i :: 0 <= i < |folders| ==> Persons(folders)[i] == FilledIn(folders[i])
  {
    if folders != [] {
      var init := folders[..|folders| - 1];
      PersonsInFolderOrder(init);
      assert forall i :: 0 <= i < |init| ==> init[i] == folders[i];
    }
  }

  /** Appending a folder appends its contribution to the pool. */
  lemma GatherSnoc<T>(folders: seq<PersonFolder>, f: PersonFolder, part: PersonFolder -> seq<T>)
    ensures Gather(folders + [f], part) == Gather(folders, part) + part(f)
  {
    var all := folders + [f];
    assert all[..|all| - 1] == folders;
  }

  /** The pool of consecutive runs of folders is the concatenation of their
      pools: contributions appear in folder order. */
  lemma {:induction false} GatherOfConcat<T>(front: seq<PersonFolder>, back: seq<PersonFolder>,
                                             part: PersonFolder -> seq<T>)
    ensures Gather(front + back, part) == Gather(front, part) + Gather(back, part)
    decreases |back|
  {
    if back == [] {
      assert front + back == front;
    } else {
      var init, last := back[..|back| - 1], back[|back| - 1];
      assert back == init + [last];
      assert front + back == (front + init) + [last];
      GatherOfConcat(front, init, part);
      GatherSnoc(front + init, last, part);
      GatherSnoc(init, last, part);
      var a, b, c := Gather(front, part), Gather(init, part), part(last);
      assert (a + b) + c == a + (b + c);
    }
  }

  /** An item is in the pool exactly when some folder's contribution contains it. */
  lemma {:induction false} GatherMembers<T>(folders: seq<PersonFolder>, part: PersonFolder -> seq<T>, item: T)
    ensures item in Gather(folders, part) <==>
      exists i :: 0 <= i < |folders| && item in part(folders[i])
  {
    if folders != [] {
      var init := folders[..|folders| - 1];
      GatherMembers(init, part, item);
      if item in Gather(init, part) {
        var i :| 0 <= i < |init| && item in part(init[i]);
        assert init[i] == folders[i];
      }
      if i :| 0 <= i < |folders| && item in part(folders[i]) {
        if i < |init| {
          assert init[i] == folders[i];
        }
      }
    }
  }

  /** The `forEach` over a folder's quotes list: push each quote, tagged with
      the folder's person, onto the quote pool. */
  method PushQuotes(quotes: seq<QuoteItem>, f: PersonFolder, person: PersonData)
    returns (r: seq<QuoteItem>)
    requires person == FilledIn(f)
    ensures r == quotes + QuotesOf(f)
  {
    r := quotes;
    ghost var tagged := QuotesOf(f);
    if f.quotes != None {
      var qs := f.quotes.value;
      var j := 0;
      while j < |qs|
        invariant 0 <= j <= |qs|
        invariant r == quotes + tagged[..j]
      {
        assert tagged[..j + 1] == tagged[..j] + [QuoteItem(qs[j], person)];
        r := r + [QuoteItem(qs[j], person)];
        j := j + 1;
      }
      assert tagged[..j] == tagged;
    }
  }

  /** The `forEach` over a folder's image listing: push one entry per file,
      with its public path and the folder's person, onto the image pool. */
  method PushImages(images: seq<ImageItem>, f: PersonFolder, person: PersonData)
    returns (r: seq<ImageItem>)
    requires person == FilledIn(f)
    ensures r == images + ImagesOf(f)
  {
    r := images;
    ghost var entries := ImagesOf(f);
    var files := if f.imageFiles == None then [] else f.imageFiles.value;
    var j := 0;
    while j < |files|
      invariant 0 <= j <= |files|
      invariant r == images + entries[..j]
    {
      assert entries[..j + 1] == entries[..j] + [ImageItem(ImagePath(f.name, files[j]), person)];
      r := r + [ImageItem("/" + f.name + "/images/" + files[j], person)];
      j := j + 1;
    }
    assert entries[..j] == entries;
  }

  /** The aggregation loop: for each folder in turn, fill in the person,
      push it, push its tagged quotes, push its image entries. */
  method Aggregate(folders: seq<PersonFolder>)
    returns (allPersons: seq<PersonData>, quotes: seq<QuoteItem>, images: seq<ImageItem>)
    ensures allPersons == Persons(folders)
    ensures quotes == QuotePool(folders)
    ensures images == ImagePool(folders)
  {
    allPersons, quotes, images := [], [], [];
    var i := 0;
    while i < |folders|
      invariant 0 <= i <= |folders|
      invariant allPersons == Persons(folders[..i])
      invariant quotes == QuotePool(folders[..i])
      invariant images == ImagePool(folders[..i])
    {
      var folder := folders[i];
      assert folders[..i + 1] == folders[..i] + [folder];

      var personData := folder.personData;
      if Falsy(personData.id) || Falsy(personData.name) {
        personData := personData.(id := Some(folder.name));
        personData := personData.(name := Some(UnknownName(folder.name)));
      }
      allPersons := allPersons + [personData];
      quotes := PushQuotes(quotes, folder, personData);
      images := PushImages(images, folder, personData);

      GatherSnoc(folders[..i], folder, QuotesOf);
      GatherSnoc(folders[..i], folder, ImagesOf);
      i := i + 1;
    }
    assert folders[..i] == folders;
  }
}
