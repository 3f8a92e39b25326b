/** The sitemap of app/sitemap.ts: four static pages and one page per
    catalogue card, under the configured site URL. Modification times are
    the clock's and are not modelled; priorities are kept in tenths. */
module Sitemap {
  import opened Results
  import opened Js
  import Catalogue

  datatype ChangeFrequency = Daily | Monthly | Yearly

  /** One sitemap entry; `priorityTenths` is ten times the priority. */
  datatype Entry = Entry(url: string, changeFrequency: ChangeFrequency, priorityTenths: nat)

  const DefaultBase: string := "https://www.cardroots.com"

  /** `(NEXT_PUBLIC_SITE_URL || "https://www.cardroots.com").replace(/\/$/, "")`:
      the fallback is chosen first, then one trailing slash is removed, so
      a site URL of "/" gives the empty base. */
  function Base(siteUrl: Option<string>): (base: string)
    ensures Truthy(siteUrl) ==> base == StripTrailingSlash(siteUrl.value)
    ensures !Truthy(siteUrl) ==> base == DefaultBase
  {
    StripTrailingSlash(Or(siteUrl, DefaultBase))
  }

  /** The card pages, in the order the sitemap lists them. */
  const CardPages: seq<string> := [
    "starlit-christmas-tree",
    "christmas-night-moonlight",
    "snowy-cottage-evening",
    "winter-forest-tree",
    "golden-christmas-tree-rise",
    "santas-moonlit-ride",
    "birthday-rose-bloom",
    "elegant-floral-birthday",
    "thank-you-florals",
    "heart-of-light",
    "golden-heart-glow",
    "warm-wishes"
  ]

  /** `staticPages`: the home page first, then three pages below it, each
      at its own URL. `StaticEntries` gives each entry. */
  function StaticPages(base: string): (pages: seq<Entry>)
    ensures |pages| == 4
    ensures pages[0].url == base
    ensures forall i :: 0 <= i < 4 ==> StartsWith(pages[i].url, base)
    ensures forall i, j :: 0 <= i < j < 4 ==> pages[i].url != pages[j].url
  {
    [
      Entry(base, Daily, 10),
      Entry(base + "/corporate", Monthly, 6),
      Entry(base + "/terms", Yearly, 2),
      Entry(base + "/privacy", Yearly, 2)
    ]
  }

  /** `cardPages.map(...)`: one entry per key, in order. */
  function CardEntries(base: string, keys: seq<string>): (pages: seq<Entry>)
    ensures |pages| == |keys|
    ensures forall i :: 0 <= i < |keys| ==> pages[i] == Entry(base + "/card/" + keys[i], Monthly, 9)
  {
    seq(|keys|, i requires 0 <= i < |keys| => Entry(base + "/card/" + keys[i], Monthly, 9))
  }

  /** `sitemap()`. */
  function Sitemap(siteUrl: Option<string>): (entries: seq<Entry>)
    ensures |entries| == 16
    ensures entries[..4] == StaticPages(Base(siteUrl))
    ensures entries[4..] == CardEntries(Base(siteUrl), CardPages)
  {
    var base := Base(siteUrl);
    StaticPages(base) + CardEntries(base, CardPages)
  }

  /** The four static pages head the sitemap: the home page daily at
      priority 1.0, `/corporate` monthly at 0.6, `/terms` and `/privacy`
      yearly at 0.2. */
  lemma StaticEntries(siteUrl: Option<string>)
    ensures var base, entries := Base(siteUrl), Sitemap(siteUrl);
      && entries[0] == Entry(base, Daily, 10)
      && entries[1] == Entry(base + "/corporate", Monthly, 6)
      && entries[2] == Entry(base + "/terms", Yearly, 2)
      && entries[3] == Entry(base + "/privacy", Yearly, 2)
  {
    var entries := Sitemap(siteUrl);
    assert entries[..4][1] == entries[1] && entries[..4][2] == entries[2] && entries[..4][3] == entries[3];
  }

  /** The sitemap's card pages are the catalogue's cards, in catalogue
      order. */
  lemma CardPagesAreCatalogue()
    ensures CardPages == Catalogue.Keys(Catalogue.Cards)
  {
  }

  /** Every card of the catalogue has its page in the sitemap, at its
      catalogue position after the four static pages. */
  lemma EveryCardListed(siteUrl: Option<string>, i: int)
    requires 0 <= i < |Catalogue.Cards|
    ensures Sitemap(siteUrl)[4 + i] == Entry(Base(siteUrl) + "/card/" + Catalogue.Cards[i].key, Monthly, 9)
  {
    CardPagesAreCatalogue();
    assert Sitemap(siteUrl)[4 + i] == Sitemap(siteUrl)[4..][i];
  }

  /** A site URL written with one trailing slash gives the same sitemap as
      the URL without it. */
  lemma TrailingSlashIgnored(siteUrl: string)
    requires siteUrl != "" && !EndsWithSlash(siteUrl)
    ensures Sitemap(Some(siteUrl + "/")) == Sitemap(Some(siteUrl))
  {
    assert (siteUrl + "/")[..|siteUrl + "/"| - 1] == siteUrl;
  }
}
