/**
 * The app bundle as the loaders see it: `Bundle.main.url(forResource:withExtension:)` finds a
 * file or not, `Data(contentsOf:)` reads it or throws, and `JSONDecoder` decodes it or throws.
 * The bundle is an input map; nothing here reads files.
 */
module Resources {
  import opened Wrappers
  import Text
  import Schema

  /** A bundled file, named by base name and extension as `url(forResource:withExtension:)` takes them. */
  datatype ResourceId = ResourceId(name: string, ext: string)

  /**
   * What reading a bundled file gives: the read throws (with the error's description), or it
   * yields the file's contents, which parse as a JSON document or not (`json`), and which,
   * for an image, are the `Data` handed to the Location (`payload`).
   */
  datatype Resource =
    | Unreadable(reason: string)
    | Readable(json: Option<Schema.Json>, payload: string)

  type Bundle = map<ResourceId, Resource>

  /** `"season\(seasonNumber)"`, the base name of a season's file. */
  function SeasonFileName(seasonNumber: int): string {
    "season" + Text.IntToString(seasonNumber)
  }

  /** Different seasons are looked up under different names. */
  lemma SeasonFileNamesDiffer(m: int, n: int)
    requires m != n
    ensures SeasonFileName(m) != SeasonFileName(n)
  {
    if SeasonFileName(m) == SeasonFileName(n) {
      assert Text.IntToString(m) == SeasonFileName(m)[6..];
      Text.IntToStringInjective(m, n);
    }
  }

  function SeasonResource(seasonNumber: int): ResourceId {
    ResourceId(SeasonFileName(seasonNumber), "json")
  }

  /** Why a season's file that was found could not be turned into a SeasonData. */
  datatype LoadError =
    | ReadFailed(reason: string)
    | DecodeFailed(error: Schema.DecodingError)

  /** Foundation's `localizedDescription` of a `DecodingError`. */
  function DecodingDescription(e: Schema.DecodingError): string {
    match e
    case KeyNotFound(_) => "The data couldn\U{2019}t be read because it is missing."
    case ValueNotFound(_) => "The data couldn\U{2019}t be read because it is missing."
    case TypeMismatch(_) => "The data couldn\U{2019}t be read because it isn\U{2019}t in the correct format."
    case DataCorrupted(_) => "The data couldn\U{2019}t be read because it isn\U{2019}t in the correct format."
  }

  /** `error.localizedDescription` for a failed load. */
  function Describe(e: LoadError): string {
    match e
    case ReadFailed(reason) => reason
    case DecodeFailed(d) => DecodingDescription(d)
  }

  /** The three outcomes of looking for, reading and decoding a season's file. */
  datatype SeasonLookup =
    | NotFound
    | LoadFailed(error: LoadError)
    | Loaded(season: Schema.SeasonData)

  /**
   * `url(forResource: "season<N>", withExtension: "json")`, then `Data(contentsOf:)`, then
   * `JSONDecoder().decode(SeasonData.self, from:)`. Contents that are not JSON at all fail as
   * `dataCorrupted` at the root.
   */
  function LookupSeason(b: Bundle, seasonNumber: int): SeasonLookup {
    var id := SeasonResource(seasonNumber);
    if id !in b then NotFound
    else
      match b[id]
      case Unreadable(reason) => LoadFailed(ReadFailed(reason))
      case Readable(None, _) => LoadFailed(DecodeFailed(Schema.DataCorrupted("")))
      case Readable(Some(j), _) =>
        match Schema.DecodeSeason(j)
        case Success(sd) => Loaded(sd)
        case Failure(e) => LoadFailed(DecodeFailed(e))
  }

  /** A season file holding the encoding of a record loads as that record. */
  lemma EncodedSeasonLoads(b: Bundle, seasonNumber: int, sd: Schema.SeasonData, payload: string)
    requires SeasonResource(seasonNumber) in b
    requires b[SeasonResource(seasonNumber)] == Readable(Some(Schema.EncodeSeason(sd)), payload)
    ensures LookupSeason(b, seasonNumber) == Loaded(sd)
  {
    Schema.SeasonRoundTrip(sd);
  }

  /** A season file lacking one of the season's keys is a load failure, not a skip. */
  lemma SeasonMissingKeyFailsToLoad(b: Bundle, seasonNumber: int, sd: Schema.SeasonData, k: string, payload: string)
    requires k in Schema.SeasonKeys && SeasonResource(seasonNumber) in b
    requires b[SeasonResource(seasonNumber)] == Readable(Some(Schema.JObject(Schema.SeasonFields(sd) - {k})), payload)
    ensures LookupSeason(b, seasonNumber) == LoadFailed(DecodeFailed(Schema.KeyNotFound(k)))
  {
    Schema.MissingSeasonKeyFails(sd, k);
  }

  /**
   * The resource an image filename is looked up under: the text before the first '.' as the
   * name and the text after the last '.' as the extension.
   */
  function ImageResource(filename: string): ResourceId {
    ResourceId(Text.FirstComponent(filename, '.'), Text.LastComponent(filename, '.'))
  }

  lemma ImageResourceSplitsOnDots(filename: string)
    ensures var id := ImageResource(filename);
      && id.name <= filename && '.' !in id.name
      && (|id.name| == |filename| || filename[|id.name|] == '.')
      && |id.ext| <= |filename| && filename[|filename| - |id.ext|..] == id.ext && '.' !in id.ext
      && (|id.ext| == |filename| || filename[|filename| - |id.ext| - 1] == '.')
  {
    Text.FirstComponentIsTextBeforeFirstSeparator(filename, '.');
    Text.LastComponentIsTextAfterLastSeparator(filename, '.');
  }

  /** Without a '.', the whole filename is both the name and the extension. */
  lemma ImageWithoutDot(filename: string)
    requires '.' !in filename
    ensures ImageResource(filename) == ResourceId(filename, filename)
  {
    Text.NoSeparatorIsOneComponent(filename, '.');
  }

  /** "name.ext" with no other '.' is looked up as exactly (name, ext). */
  lemma ImageNameAndExtension(name: string, ext: string)
    requires '.' !in name && '.' !in ext
    ensures ImageResource(name + "." + ext) == ResourceId(name, ext)
  {
    var f := name + "." + ext;
    Text.JoinComponents(f, '.');
    var parts := Text.Components(f, '.');
    ImageResourceSplitsOnDots(f);
    var id := ImageResource(f);
    assert f[|name|] == '.';
    assert forall i :: 0 <= i < |name| ==> f[i] == name[i];
    assert forall i :: 0 <= i < |ext| ==> f[|name| + 1 + i] == ext[i];
  }

  /** With more than one '.', the middle of the name is dropped from the lookup. */
  lemma ImageWithSeveralDots()
    ensures ImageResource("a.b.jpg") == ResourceId("a", "jpg")
  {
    assert Text.Components("jpg", '.') == ["jpg"] by {
      Text.NoSeparatorIsOneComponent("jpg", '.');
    }
    assert ".jpg"[1..] == "jpg";
    assert Text.Components(".jpg", '.') == ["", "jpg"];
    assert "b.jpg"[1..] == ".jpg" && "b.jpg"[0] == 'b';
    assert ['b'] + "" == "b" && ["", "jpg"][1..] == ["jpg"];
    assert Text.Components("b.jpg", '.') == ["b", "jpg"];
    assert ".b.jpg"[1..] == "b.jpg";
    assert Text.Components(".b.jpg", '.') == ["", "b", "jpg"];
    assert "a.b.jpg"[1..] == ".b.jpg" && "a.b.jpg"[0] == 'a';
    assert ['a'] + "" == "a" && ["", "b", "jpg"][1..] == ["b", "jpg"];
    assert Text.Components("a.b.jpg", '.') == ["a", "b", "jpg"];
  }

  /**
   * `loadImageData(filename:)`: the file's data when the split name is found and readable,
   * nil when it is not found (`url` returns nil) or cannot be read (`try?`).
   */
  function LoadImageData(b: Bundle, filename: string): Option<string> {
    var id := ImageResource(filename);
    if id in b && b[id].Readable? then Some(b[id].payload) else None
  }

  /** An image bundled as "name.ext" is found from the filename "name.ext". */
  lemma BundledImageIsFound(b: Bundle, name: string, ext: string)
    requires '.' !in name && '.' !in ext
    requires ResourceId(name, ext) in b && b[ResourceId(name, ext)].Readable?
    ensures LoadImageData(b, name + "." + ext) == Some(b[ResourceId(name, ext)].payload)
  {
    ImageNameAndExtension(name, ext);
  }

  /** No bundled file under the split name means no image. */
  lemma MissingImageIsNil(b: Bundle, filename: string)
    requires ImageResource(filename) !in b
    ensures LoadImageData(b, filename) == None
  {
  }
}
