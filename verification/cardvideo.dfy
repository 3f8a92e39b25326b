/** `CARD_VIDEO_MAP` and the video source of the two success pages: the
    card key names the clip the purchaser sees, through a fixed table of
    file names, falling back to the key itself. Both pages carry the same
    table; it is written once here. */
module CardVideo {
  import opened Results
  import opened Js
  import Catalogue

  /** The entries of `CARD_VIDEO_MAP` in source order: card key and video
      file name, without directory or extension. */
  const VideoTable: seq<(string, string)> := [
    ("starlit-christmas-tree", "christmas_tree"),
    ("christmas-night-moonlight", "moonlight"),
    ("snowy-cottage-evening", "Christmas2"),
    ("winter-forest-tree", "XmasTree"),
    ("golden-christmas-tree-rise", "Christmas1"),
    ("santas-moonlit-ride", "Santa"),
    ("birthday-rose-bloom", "rose"),
    ("elegant-floral-birthday", "Birthday2"),
    ("thank-you-florals", "Thankyou2"),
    ("heart-of-light", "heart1"),
    ("golden-heart-glow", "heart2"),
    ("warm-wishes", "warm_wishes")
  ]

  /** No key has two entries in the table. */
  predicate DistinctKeys(t: seq<(string, string)>) {
    forall j, k :: 0 <= j < k < |t| ==> t[j].0 != t[k].0
  }

  /** A table with distinct keys as a record. */
  function ToMap(t: seq<(string, string)>): (m: map<string, string>)
    requires DistinctKeys(t)
    ensures m.Keys == set i | 0 <= i < |t| :: t[i].0
  {
    map i | 0 <= i < |t| :: t[i].0 := t[i].1
  }

  /** The record gives each key the value of its table entry. */
  lemma ToMapEntry(t: seq<(string, string)>, i: int)
    requires DistinctKeys(t)
    requires 0 <= i < |t|
    ensures t[i].0 in ToMap(t) && ToMap(t)[t[i].0] == t[i].1
  {
    var k := t[i].0;
    assert k in ToMap(t);
    var j :| 0 <= j < |t| && t[j].0 == k && ToMap(t)[k] == t[j].1;
    assert j == i;
  }

  /** No card key has two entries. */
  lemma TableKeysDistinct()
    ensures DistinctKeys(VideoTable)
  {
  }

  /** `CARD_VIDEO_MAP`, keyed by card key. */
  const VideoMap: map<string, string> := (TableKeysDistinct(); ToMap(VideoTable))

  /** `CARD_VIDEO_MAP[cardKey] || cardKey`, where the key may be missing
      from the session metadata. */
  function VideoFile(cardKey: Option<string>): (f: Option<string>)
    ensures cardKey.Some? && cardKey.value in VideoMap && VideoMap[cardKey.value] != ""
      ==> f == Some(VideoMap[cardKey.value])
    ensures cardKey.None? || cardKey.value !in VideoMap ==> f == cardKey
  {
    if cardKey.Some? && cardKey.value in VideoMap then
      var mapped := Some(VideoMap[cardKey.value]);
      if Truthy(mapped) then mapped else cardKey
    else cardKey
  }

  /** `/cards/${videoFileName}.mp4`. */
  function VideoSrc(cardKey: Option<string>): (src: string)
    ensures |src| >= 11 && src[..7] == "/cards/" && src[|src| - 4..] == ".mp4"
  {
    "/cards/" + Interpolate(VideoFile(cardKey)) + ".mp4"
  }

  /** A key outside the table names its own clip; an absent key names the
      clip "undefined". */
  lemma VideoSrcFallback(cardKey: Option<string>)
    requires cardKey.None? || cardKey.value !in VideoMap
    ensures cardKey.Some? ==> VideoSrc(cardKey) == "/cards/" + cardKey.value + ".mp4"
    ensures cardKey.None? ==> VideoSrc(cardKey) == "/cards/undefined.mp4"
  {
  }

  /** The table lists the catalogue's cards in catalogue order. */
  lemma TableKeysFollowCatalogue()
    ensures |VideoTable| == |Catalogue.Cards|
    ensures forall i :: 0 <= i < |VideoTable| ==> VideoTable[i].0 == Catalogue.Cards[i].key
  {
  }

  /** The table's file name for entry `i` is the clip the catalogue shows
      for card `i`. */
  predicate ClipAgrees(i: int)
    requires 0 <= i < |VideoTable| == |Catalogue.Cards|
  {
    VideoTable[i].1 != "" && "/cards/" + VideoTable[i].1 + ".mp4" == Catalogue.Cards[i].src
  }

  /** One lemma per entry keeps each string comparison in a proof of its
      own. */
  lemma ClipOfCard0()
    ensures |VideoTable| == |Catalogue.Cards| == 12 && ClipAgrees(0)
  {
  }

  lemma ClipOfCard1()
    ensures |VideoTable| == |Catalogue.Cards| == 12 && ClipAgrees(1)
  {
  }

  lemma ClipOfCard2()
    ensures |VideoTable| == |Catalogue.Cards| == 12 && ClipAgrees(2)
  {
  }

  lemma ClipOfCard3()
    ensures |VideoTable| == |Catalogue.Cards| == 12 && ClipAgrees(3)
  {
  }

  lemma ClipOfCard4()
    ensures |VideoTable| == |Catalogue.Cards| == 12 && ClipAgrees(4)
  {
  }

  lemma ClipOfCard5()
    ensures |VideoTable| == |Catalogue.Cards| == 12 && ClipAgrees(5)
  {
  }

  lemma ClipOfCard6()
    ensures |VideoTable| == |Catalogue.Cards| == 12 && ClipAgrees(6)
  {
  }

  lemma ClipOfCard7()
    ensures |VideoTable| == |Catalogue.Cards| == 12 && ClipAgrees(7)
  {
  }

  lemma ClipOfCard8()
    ensures |VideoTable| == |Catalogue.Cards| == 12 && ClipAgrees(8)
  {
  }

  lemma ClipOfCard9()
    ensures |VideoTable| == |Catalogue.Cards| == 12 && ClipAgrees(9)
  {
  }

  lemma ClipOfCard10()
    ensures |VideoTable| == |Catalogue.Cards| == 12 && ClipAgrees(10)
  {
  }

  lemma ClipOfCard11()
    ensures |VideoTable| == |Catalogue.Cards| == 12 && ClipAgrees(11)
  {
  }

  /** Each entry names the clip the catalogue shows for that card. */
  lemma TableFilesFollowCatalogue(i: int)
    requires 0 <= i < |VideoTable| == |Catalogue.Cards|
    ensures VideoTable[i].1 != ""
    ensures "/cards/" + VideoTable[i].1 + ".mp4" == Catalogue.Cards[i].src
  {
    ClipOfCard0();
    ClipOfCard1();
    ClipOfCard2();
    ClipOfCard3();
    ClipOfCard4();
    ClipOfCard5();
    ClipOfCard6();
    ClipOfCard7();
    ClipOfCard8();
    ClipOfCard9();
    ClipOfCard10();
    ClipOfCard11();
    assert ClipAgrees(i);
  }

  /** The table covers exactly the catalogue's keys. */
  lemma VideoMapCoversCatalogue()
    ensures VideoMap.Keys == set i | 0 <= i < |Catalogue.Cards| :: Catalogue.Cards[i].key
  {
    TableKeysFollowCatalogue();
    TableKeysDistinct();
  }

  /** For every card on sale, the success pages play the same clip as the
      catalogue shows for it. */
  lemma VideoSrcMatchesCatalogue(i: int)
    requires 0 <= i < |Catalogue.Cards|
    ensures VideoSrc(Some(Catalogue.Cards[i].key)) == Catalogue.Cards[i].src
  {
    TableKeysFollowCatalogue();
    TableFilesFollowCatalogue(i);
    TableKeysDistinct();
    ToMapEntry(VideoTable, i);
    assert VideoFile(Some(Catalogue.Cards[i].key)) == Some(VideoTable[i].1);
  }
}
