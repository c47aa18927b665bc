/** An item of a feed as it is written, field by field, and what reading it back finds. */
module Item {
  import opened Archive
  import opened Feed

  /** What an entry says of its map, each as it is written. */
  datatype MapFacts = MapFacts(format: string, minZoom: string, maxZoom: string, bounds: string, tiles: string,
                               attribution: string, encoding: string)

  /** A catalog entry as a feed has it; what it does not have is empty. */
  datatype Entry = Entry(name: string, url: string, infoHash: string, date: string, description: string,
                         categories: seq<string>, size: string, magnet: string, mutableMagnet: string, md5: string,
                         mtime: string, facts: Option<MapFacts>)

  /** One field: an element on a line of its own, or what stands in its place where there is none. */
  datatype Field = Field(name: string, attributes: string, text: Option<string>, otherwise: string) {
    predicate Valid() {
      && (attributes != [] ==> attributes[0] == ' ')
      && (forall i :: 0 <= i < |attributes| ==> attributes[i] != '<' && attributes[i] != '>')
      && (forall i :: 0 <= i < |otherwise| ==> otherwise[i] != '<')
    }

    function Parts(): seq<Part> {
      if text.Some? then [Text("\n      "), Whole(Element(name, attributes, text.value))] else [Text(otherwise)]
    }
  }

  function Plain(name: string, text: string): Field {
    Field(name, "", Some(text), "")
  }

  /** A field that is left out where it would be empty: its line then is empty, or not there. */
  function Optional(name: string, text: string, otherwise: string): Field {
    Field(name, "", if text == "" then None else Some(text), otherwise)
  }

  function PartsOf(fields: seq<Field>): seq<Part> {
    if fields == [] then [] else PartsOf(fields[..|fields| - 1]) + fields[|fields| - 1].Parts()
  }

  /** The fields before the categories. */
  function Headline(e: Entry): seq<Field> {
    [Plain("title", e.name), Plain("link", e.url), Field("guid", " isPermaLink=\"false\"", Some(e.infoHash), ""),
     Plain("pubDate", e.date), Plain("description", e.description)]
  }

  function Categories(names: seq<string>): seq<Part> {
    if names == [] then [Text("\n")] else CategoryLines(names)
  }

  function CategoryLines(names: seq<string>): seq<Part> {
    if names == [] then []
    else CategoryLines(names[..|names| - 1]) + Plain("category", names[|names| - 1]).Parts()
  }

  function Enclosure(e: Entry): seq<Part> {
    [Text("\n      "),
     Empty("enclosure", " url=\"" + Xml(e.url) + "\" length=\"" + Xml(e.size) + "\" type=\"application/x-bittorrent\"")]
  }

  /** The fields after the enclosure. */
  function Details(e: Entry): seq<Field> {
    Torrent(e) + Facts(e.facts)
  }

  function Torrent(e: Entry): seq<Field> {
    [Plain("pmtiles:infohash", e.infoHash), Plain("pmtiles:magnet", e.magnet),
     Optional("pmtiles:mutable", e.mutableMagnet, "\n"), Optional("pmtiles:md5", e.md5, "\n"),
     Optional("pmtiles:mtime", e.mtime, "\n")]
  }

  function Facts(facts: Option<MapFacts>): seq<Field> {
    match facts
    case None =>
      [Field("pmtiles:format", "", None, "\n"), Field("pmtiles:minzoom", "", None, ""),
       Field("pmtiles:maxzoom", "", None, ""), Field("pmtiles:bounds", "", None, ""),
       Field("pmtiles:tiles", "", None, ""), Field("pmtiles:attribution", "", None, ""),
       Field("pmtiles:encoding", "", None, "")]
    case Some(m) =>
      [Plain("pmtiles:format", m.format), Plain("pmtiles:minzoom", m.minZoom), Plain("pmtiles:maxzoom", m.maxZoom),
       Plain("pmtiles:bounds", m.bounds), Optional("pmtiles:tiles", m.tiles, ""),
       Optional("pmtiles:attribution", m.attribution, ""), Optional("pmtiles:encoding", m.encoding, "")]
  }

  /** An item, from its own start tag to its end. */
  function PartsOfItem(e: Entry): seq<Part> {
    [Opening("item")] + PartsOf(Headline(e)) + (Categories(e.categories) + Enclosure(e)) + PartsOf(Details(e)) +
    [Text("\n    "), Closing("item")]
  }

  function Rendered(e: Entry): string {
    Block(PartsOfItem(e))
  }

  /** Where a name comes among an item's, told from a few of its letters. */
  function Place(name: string): int
    requires |name| >= 4
  {
    if |name| > 10 && name[7] == ':' then
      var a, b, c := Lower(name[8]), Lower(name[9]), Lower(name[10]);
      if a == 'i' then 8
      else if a == 'm' then
        if b == 'u' then 10
        else if b == 'd' then 11
        else if b == 't' then 12
        else if b == 'i' then 14
        else if c == 'g' then 9 else 15
      else if a == 'f' then 13
      else if a == 'b' then 16
      else if a == 't' then 17
      else if a == 'a' then 18 else 19
    else
      var a, b := Lower(name[0]), Lower(name[1]);
      if a == 'i' then 0
      else if a == 't' then 1
      else if a == 'l' then 2
      else if a == 'g' then 3
      else if a == 'p' && b == 'u' then 4
      else if a == 'd' then 5
      else if a == 'c' then 6
      else if a == 'e' then 7 else -1
  }

  predicate IsOurs(name: string) {
    && IsName(name) && |name| >= 4 && 0 <= Place(name)
    && (|name| > 10 && name[7] == ':' ==> name[0] == 'p' && name[1] == 'm')
  }

  ghost predicate ComesAt(name: string, place: nat) {
    IsOurs(name) && Place(name) == place
  }

  lemma FirstNames()
    ensures ComesAt("item", 0) && ComesAt("title", 1) && ComesAt("link", 2) && ComesAt("guid", 3)
  {
  }

  lemma SecondNames()
    ensures ComesAt("pubDate", 4) && ComesAt("description", 5) && ComesAt("category", 6) && ComesAt("enclosure", 7)
  {
  }

  lemma ThirdNames()
    ensures ComesAt("pmtiles:infohash", 8) && ComesAt("pmtiles:magnet", 9) && ComesAt("pmtiles:mutable", 10)
  {
  }

  lemma FourthNames()
    ensures ComesAt("pmtiles:md5", 11) && ComesAt("pmtiles:mtime", 12) && ComesAt("pmtiles:format", 13)
  {
  }

  lemma FifthNames()
    ensures ComesAt("pmtiles:minzoom", 14) && ComesAt("pmtiles:maxzoom", 15) && ComesAt("pmtiles:bounds", 16)
  {
  }

  lemma LastNames()
    ensures ComesAt("pmtiles:tiles", 17) && ComesAt("pmtiles:attribution", 18) && ComesAt("pmtiles:encoding", 19)
  {
  }

  /** No start tag of one name is taken for another. */
  lemma NamesAreApart(a: string, b: string)
    requires IsOurs(a) && IsOurs(b) && Shadows(a, b)
    ensures Place(a) == Place(b)
  {
    hide IsName;
  }

  /** Parts whose elements are named between one place and another. */
  ghost predicate Between(parts: seq<Part>, lo: nat, hi: nat) {
    forall k :: 0 <= k < |parts| ==>
      parts[k].Valid() && (parts[k].Name().Some? ==>
        IsOurs(parts[k].Name().value) && lo <= Place(parts[k].Name().value) < hi)
  }

  lemma BetweenAdds(a: seq<Part>, b: seq<Part>, lo: nat, mid: nat, hi: nat)
    requires lo <= mid <= hi && Between(a, lo, mid) && Between(b, mid, hi)
    ensures Between(a + b, lo, hi)
  {
    hide Part.Valid, Part.Name, IsOurs, Place;
  }

  lemma NoneTaken(parts: seq<Part>, lo: nat, hi: nat, name: string)
    requires Between(parts, lo, hi) && IsOurs(name) && !(lo <= Place(name) < hi)
    ensures forall k :: 0 <= k < |parts| ==> parts[k].Valid() && !parts[k].IsTakenFor(name)
  {
    hide Part.Valid, Part.Name, Place, IsOurs, Shadows;
    forall k | 0 <= k < |parts|
      ensures !parts[k].IsTakenFor(name)
    {
      if parts[k].IsTakenFor(name) {
        NamesAreApart(parts[k].Name().value, name);
      }
    }
  }

  /** Fields one after another from a place on. */
  ghost predicate Named(fields: seq<Field>, base: nat) {
    forall k :: 0 <= k < |fields| ==> fields[k].Valid() && ComesAt(fields[k].name, base + k)
  }

  lemma FieldIsBetween(f: Field, place: nat)
    requires f.Valid() && ComesAt(f.name, place)
    ensures Between(f.Parts(), place, place + 1)
  {
    hide IsName;
  }

  lemma {:induction false} FieldsAreBetween(fields: seq<Field>, base: nat)
    requires Named(fields, base)
    ensures Between(PartsOf(fields), base, base + |fields|)
  {
    if fields != [] {
      var n := |fields| - 1;
      FieldsAreBetween(fields[..n], base);
      FieldIsBetween(fields[n], base + n);
      hide *;
      BetweenAdds(PartsOf(fields[..n]), fields[n].Parts(), base, base + n, base + n + 1);
      PartsOfLast(fields);
    }
  }

  lemma PartsOfLast(fields: seq<Field>)
    requires fields != []
    ensures PartsOf(fields) == PartsOf(fields[..|fields| - 1]) + fields[|fields| - 1].Parts()
  {
  }

  lemma {:induction false} PartsAdd(a: seq<Field>, b: seq<Field>)
    ensures PartsOf(a + b) == PartsOf(a) + PartsOf(b)
  {
    hide Field.Parts;
    if b == [] {
      assert a + b == a;
    } else {
      var n := |b| - 1;
      PartsAdd(a, b[..n]);
      PartsOfLast(a + b);
      PartsOfLast(b);
      assert (a + b)[..|a| + n] == a + b[..n];
    }
  }

  lemma PartsOfOne(f: Field)
    ensures PartsOf([f]) == f.Parts()
  {
    hide Field.Parts;
  }

  lemma FieldsRegroup(a: seq<Part>, b: seq<Part>, c: seq<Part>)
    ensures a + b + c == a + (b + c)
  {
  }

  lemma PartsSplit(fields: seq<Field>, i: nat)
    requires i < |fields|
    ensures PartsOf(fields) == PartsOf(fields[..i]) + fields[i].Parts() + PartsOf(fields[i + 1..])
  {
    hide *;
    var a, f, b := fields[..i], fields[i], fields[i + 1..];
    SplitAt(fields, i);
    PartsAdd(a, [f] + b);
    PartsAdd([f], b);
    PartsOfOne(f);
    FieldsRegroup(PartsOf(a), f.Parts(), PartsOf(b));
  }

  lemma AllRegroup(a: seq<Part>, b: seq<Part>, c: seq<Part>, d: seq<Part>, e: seq<Part>)
    ensures a + (b + c + d) + e == a + b + c + (d + e)
  {
  }

  function Read(text: Option<string>): Option<string> {
    if text.Some? then Some(Trimmed(text.value)) else None
  }

  lemma NamedAround(fields: seq<Field>, base: nat, i: nat)
    requires Named(fields, base) && i < |fields|
    ensures Named(fields[..i], base) && Named(fields[i + 1..], base + i + 1)
    ensures fields[i].Valid() && ComesAt(fields[i].name, base + i)
  {
    hide Field.Valid, ComesAt;
    var rest := fields[i + 1..];
    assert forall k :: 0 <= k < |rest| ==> rest[k] == fields[i + 1 + k];
  }

  lemma ComesAtIs(name: string, place: nat)
    requires ComesAt(name, place)
    ensures IsOurs(name) && Place(name) == place && IsName(name)
  {
    hide IsName, Place;
  }

  /** A field among others is read back, and is found to be absent where it is. */
  lemma FieldIsRead(before: seq<Part>, fields: seq<Field>, base: nat, after: seq<Part>, end: nat, i: nat)
    requires Named(fields, base) && i < |fields| && base + |fields| <= end
    requires Between(before, 0, base) && Between(after, base + |fields|, end)
    ensures Tag(Block(before + PartsOf(fields) + after), fields[i].name) == Read(fields[i].text)
  {
    var f, place := fields[i], base + i;
    var front, back := before + PartsOf(fields[..i]), PartsOf(fields[i + 1..]) + after;
    hide *;
    NamedAround(fields, base, i);
    FieldsAreBetween(fields[..i], base);
    FieldsAreBetween(fields[i + 1..], place + 1);
    BetweenAdds(before, PartsOf(fields[..i]), 0, base, place);
    BetweenAdds(PartsOf(fields[i + 1..]), after, place + 1, base + |fields|, end);
    PartsSplit(fields, i);
    AllRegroup(before, PartsOf(fields[..i]), f.Parts(), PartsOf(fields[i + 1..]), after);
    OneFieldIsRead(front, f, place, back, end);
  }

  lemma OneFieldIsRead(front: seq<Part>, f: Field, place: nat, back: seq<Part>, end: nat)
    requires f.Valid() && ComesAt(f.name, place) && place < end
    requires Between(front, 0, place) && Between(back, place + 1, end)
    ensures Tag(Block(front + f.Parts() + back), f.name) == Read(f.text)
  {
    ComesAtIs(f.name, place);
    NoneTaken(front, 0, place, f.name);
    NoneTaken(back, place + 1, end, f.name);
    PartsAre(f);
    var parts := front + f.Parts() + back;
    hide Part.IsTakenFor, Part.Valid, Field.Valid, Block, Tag, Field.Parts, IsName, IsOurs, Place, Between, Trimmed;
    if f.text.Some? {
      FieldSurvives(parts, |front| + 1);
    } else {
      NoField(parts, f.name);
    }
  }

  lemma PartsAre(f: Field)
    requires f.Valid() && IsName(f.name)
    ensures forall k :: 0 <= k < |f.Parts()| ==> f.Parts()[k].Valid()
    ensures f.text.Some? ==>
              && |f.Parts()| == 2 && f.Parts()[1] == Whole(Element(f.name, f.attributes, f.text.value))
              && forall name: string :: !f.Parts()[0].IsTakenFor(name)
    ensures f.text.None? ==> forall k, name: string :: 0 <= k < |f.Parts()| ==> !f.Parts()[k].IsTakenFor(name)
  {
    hide IsName;
  }

  lemma HeadlineIsNamed(e: Entry)
    ensures Named(Headline(e), 1) && |Headline(e)| == 5
  {
    FirstNames();
    SecondNames();
    hide ComesAt;
  }

  lemma DetailsAreNamed(e: Entry)
    ensures Named(Details(e), 8) && |Details(e)| == 12
  {
    TorrentIsNamed(e);
    FactsAreNamed(e.facts);
    hide Torrent, Facts;
    NamedAdds(Torrent(e), Facts(e.facts), 8);
  }

  lemma TorrentIsNamed(e: Entry)
    ensures Named(Torrent(e), 8) && |Torrent(e)| == 5
  {
    ThirdNames();
    FourthNames();
    hide ComesAt;
  }

  lemma FactsAreNamed(facts: Option<MapFacts>)
    ensures Named(Facts(facts), 13) && |Facts(facts)| == 7
  {
    FourthNames();
    FifthNames();
    LastNames();
    hide ComesAt;
  }

  lemma NamedAdds(a: seq<Field>, b: seq<Field>, base: nat)
    requires Named(a, base) && Named(b, base + |a|)
    ensures Named(a + b, base)
  {
    hide Field.Valid, ComesAt;
  }

  lemma {:induction false} CategoriesAreBetween(names: seq<string>)
    ensures Between(CategoryLines(names), 6, 7) && Between(Categories(names), 6, 7)
  {
    if names != [] {
      var n := |names| - 1;
      CategoriesAreBetween(names[..n]);
      SecondNames();
      FieldIsBetween(Plain("category", names[n]), 6);
      hide Between, ComesAt;
      BothBetween(CategoryLines(names[..n]), Plain("category", names[n]).Parts(), 6, 7);
    }
  }

  lemma BothBetween(a: seq<Part>, b: seq<Part>, lo: nat, hi: nat)
    requires Between(a, lo, hi) && Between(b, lo, hi)
    ensures Between(a + b, lo, hi)
  {
    hide Part.Valid, Part.Name, IsOurs, Place;
  }

  lemma EnclosureIsBetween(e: Entry)
    ensures Between(Enclosure(e), 7, 8)
  {
    SecondNames();
    EscapedHasNoTags(e.url);
    EscapedHasNoTags(e.size);
    XmlEscapes(e.url);
    XmlEscapes(e.size);
    hide IsName, Xml, Escaped;
  }

  lemma EndsAreBetween()
    ensures Between([Opening("item")], 0, 1) && Between([Text("\n    "), Closing("item")], 20, 20)
  {
    FirstNames();
    hide IsName;
  }

  lemma HeadlineReadsBack(e: Entry, i: nat)
    requires i < 5
    ensures Tag(Rendered(e), Headline(e)[i].name) == Read(Headline(e)[i].text)
  {
    var last := [Text("\n    "), Closing("item")];
    var rest := Categories(e.categories) + Enclosure(e);
    var before, after := [Opening("item")], rest + PartsOf(Details(e)) + last;
    assert PartsOfItem(e) == before + PartsOf(Headline(e)) + after;
    hide *;
    HeadlineIsNamed(e);
    DetailsAreNamed(e);
    FieldsAreBetween(Details(e), 8);
    CategoriesAreBetween(e.categories);
    EnclosureIsBetween(e);
    EndsAreBetween();
    BetweenAdds(Categories(e.categories), Enclosure(e), 6, 7, 8);
    BetweenAdds(rest, PartsOf(Details(e)), 6, 8, 20);
    BetweenAdds(rest + PartsOf(Details(e)), last, 6, 20, 20);
    FieldIsRead(before, Headline(e), 1, after, 20, i);
    RenderedIs(e);
  }

  lemma DetailsReadBack(e: Entry, i: nat)
    requires i < 12
    ensures |Details(e)| == 12 && Tag(Rendered(e), Details(e)[i].name) == Read(Details(e)[i].text)
  {
    var rest := Categories(e.categories) + Enclosure(e);
    var before, after := [Opening("item")] + PartsOf(Headline(e)) + rest, [Text("\n    "), Closing("item")];
    assert PartsOfItem(e) == before + PartsOf(Details(e)) + after;
    hide *;
    HeadlineIsNamed(e);
    DetailsAreNamed(e);
    FieldsAreBetween(Headline(e), 1);
    CategoriesAreBetween(e.categories);
    EnclosureIsBetween(e);
    EndsAreBetween();
    BetweenAdds(Categories(e.categories), Enclosure(e), 6, 7, 8);
    BetweenAdds([Opening("item")], PartsOf(Headline(e)), 0, 1, 6);
    BetweenAdds([Opening("item")] + PartsOf(Headline(e)), rest, 0, 6, 8);
    FieldIsRead(before, Details(e), 8, after, 20, i);
    RenderedIs(e);
  }

  lemma RenderedIs(e: Entry)
    ensures Rendered(e) == Block(PartsOfItem(e))
  {
  }

  /** What there may be none of. */
  function Given(text: string): Option<string> {
    if text == "" then None else Some(Trimmed(text))
  }

  lemma PlainIs(e: Entry, i: nat, name: string, text: string)
    requires i < 12 && |Details(e)| == 12 && Details(e)[i] == Plain(name, text)
    ensures Tag(Rendered(e), name) == Some(Trimmed(text))
  {
    hide Tag, Rendered, Details, Trimmed;
    DetailsReadBack(e, i);
  }

  lemma OptionalIs(e: Entry, i: nat, name: string, text: string, otherwise: string)
    requires i < 12 && |Details(e)| == 12 && Details(e)[i] == Optional(name, text, otherwise)
    ensures Tag(Rendered(e), name) == Given(text)
  {
    hide Tag, Rendered, Details, Trimmed;
    DetailsReadBack(e, i);
  }

  lemma HeadlineIs(e: Entry)
    ensures Tag(Rendered(e), "title") == Some(Trimmed(e.name)) && Tag(Rendered(e), "link") == Some(Trimmed(e.url))
    ensures Tag(Rendered(e), "guid") == Some(Trimmed(e.infoHash))
    ensures Tag(Rendered(e), "pubDate") == Some(Trimmed(e.date))
    ensures Tag(Rendered(e), "description") == Some(Trimmed(e.description))
  {
    hide Tag, Rendered, Trimmed;
    HeadlineReadsBack(e, 0);
    HeadlineReadsBack(e, 1);
    HeadlineReadsBack(e, 2);
    HeadlineReadsBack(e, 3);
    HeadlineReadsBack(e, 4);
  }

  /** What was published of an entry is what a subscriber reads, trimmed: nothing is taken for anything else. */
  lemma ItemReadsBack(e: Entry)
    ensures var block := Rendered(e);
            && Tag(block, "title") == Some(Trimmed(e.name)) && Tag(block, "link") == Some(Trimmed(e.url))
            && Tag(block, "guid") == Some(Trimmed(e.infoHash)) && Tag(block, "pubDate") == Some(Trimmed(e.date))
            && Tag(block, "description") == Some(Trimmed(e.description))
            && Tag(block, "pmtiles:infohash") == Some(Trimmed(e.infoHash))
            && Tag(block, "pmtiles:magnet") == Some(Trimmed(e.magnet))
            && Tag(block, "pmtiles:mutable") == Given(e.mutableMagnet)
            && Tag(block, "pmtiles:md5") == Given(e.md5) && Tag(block, "pmtiles:mtime") == Given(e.mtime)
  {
    DetailsAreNamed(e);
    assert Details(e)[..5] == Torrent(e);
    hide *;
    HeadlineIs(e);
    TorrentIs(e);
    PlainIs(e, 0, "pmtiles:infohash", e.infoHash);
    PlainIs(e, 1, "pmtiles:magnet", e.magnet);
    OptionalIs(e, 2, "pmtiles:mutable", e.mutableMagnet, "\n");
    OptionalIs(e, 3, "pmtiles:md5", e.md5, "\n");
    OptionalIs(e, 4, "pmtiles:mtime", e.mtime, "\n");
  }

  lemma TorrentIs(e: Entry)
    requires |Details(e)| == 12
    ensures Details(e)[0] == Plain("pmtiles:infohash", e.infoHash) && Details(e)[1] == Plain("pmtiles:magnet", e.magnet)
    ensures Details(e)[2] == Optional("pmtiles:mutable", e.mutableMagnet, "\n")
    ensures Details(e)[3] == Optional("pmtiles:md5", e.md5, "\n")
    ensures Details(e)[4] == Optional("pmtiles:mtime", e.mtime, "\n")
  {
    hide Plain, Optional, Facts;
  }

  lemma FactsAt(e: Entry, i: nat)
    requires |Details(e)| == 12 && |Facts(e.facts)| == 7 && i < 7
    ensures Details(e)[5 + i] == Facts(e.facts)[i]
  {
    TorrentIsNamed(e);
    hide Torrent, Facts;
  }

  lemma MapIs(m: MapFacts)
    ensures |Facts(Some(m))| == 7
    ensures Facts(Some(m))[..4] ==
            [Plain("pmtiles:format", m.format), Plain("pmtiles:minzoom", m.minZoom),
             Plain("pmtiles:maxzoom", m.maxZoom), Plain("pmtiles:bounds", m.bounds)]
    ensures Facts(Some(m))[4] == Optional("pmtiles:tiles", m.tiles, "")
    ensures Facts(Some(m))[5] == Optional("pmtiles:attribution", m.attribution, "")
    ensures Facts(Some(m))[6] == Optional("pmtiles:encoding", m.encoding, "")
  {
    hide Plain, Optional;
  }

  /** What its map was said to be. */
  ghost predicate SaysOfMap(block: string, m: MapFacts) {
    && Tag(block, "pmtiles:format") == Some(Trimmed(m.format))
    && Tag(block, "pmtiles:minzoom") == Some(Trimmed(m.minZoom))
    && Tag(block, "pmtiles:maxzoom") == Some(Trimmed(m.maxZoom))
    && Tag(block, "pmtiles:bounds") == Some(Trimmed(m.bounds)) && Tag(block, "pmtiles:tiles") == Given(m.tiles)
    && Tag(block, "pmtiles:attribution") == Given(m.attribution)
    && Tag(block, "pmtiles:encoding") == Given(m.encoding)
  }

  lemma MapFieldIs(e: Entry, i: nat)
    requires i < 7
    ensures |Details(e)| == 12 && |Facts(e.facts)| == 7 && Details(e)[5 + i] == Facts(e.facts)[i]
  {
    hide *;
    DetailsAreNamed(e);
    FactsAreNamed(e.facts);
    FactsAt(e, i);
  }

  lemma MapFieldsAre(e: Entry)
    ensures |Details(e)| == 12 && |Facts(e.facts)| == 7
    ensures Details(e)[5] == Facts(e.facts)[0] && Details(e)[6] == Facts(e.facts)[1]
    ensures Details(e)[7] == Facts(e.facts)[2] && Details(e)[8] == Facts(e.facts)[3]
    ensures Details(e)[9] == Facts(e.facts)[4] && Details(e)[10] == Facts(e.facts)[5]
    ensures Details(e)[11] == Facts(e.facts)[6]
  {
    hide *;
    MapFieldIs(e, 0);
    MapFieldIs(e, 1);
    MapFieldIs(e, 2);
    MapFieldIs(e, 3);
    MapFieldIs(e, 4);
    MapFieldIs(e, 5);
    MapFieldIs(e, 6);
  }

  lemma MapIsRead(e: Entry, m: MapFacts)
    requires e.facts == Some(m)
    ensures SaysOfMap(Rendered(e), m)
  {
    MapIs(m);
    hide Tag, Rendered, Facts, Details, Plain, Optional, Trimmed, Given;
    MapFieldsAre(e);
    PlainIs(e, 5, "pmtiles:format", m.format);
    PlainIs(e, 6, "pmtiles:minzoom", m.minZoom);
    PlainIs(e, 7, "pmtiles:maxzoom", m.maxZoom);
    PlainIs(e, 8, "pmtiles:bounds", m.bounds);
    OptionalIs(e, 9, "pmtiles:tiles", m.tiles, "");
    OptionalIs(e, 10, "pmtiles:attribution", m.attribution, "");
    OptionalIs(e, 11, "pmtiles:encoding", m.encoding, "");
  }

  lemma NothingOfMap(e: Entry)
    requires e.facts == None
    ensures Tag(Rendered(e), "pmtiles:format") == None
  {
    MapFieldIs(e, 0);
    hide Tag, Rendered, Details, Trimmed;
    DetailsReadBack(e, 5);
  }

  /** And so is what it said of its map; where it said nothing, there is no format, without which none of it counts. */
  lemma MapReadsBack(e: Entry)
    ensures e.facts.Some? ==> SaysOfMap(Rendered(e), e.facts.value)
    ensures e.facts.None? ==> Tag(Rendered(e), "pmtiles:format") == None
  {
    hide *;
    if e.facts.Some? {
      MapIsRead(e, e.facts.value);
    } else {
      NothingOfMap(e);
    }
  }
}
