/**
  The two name-keyed tables of `ResponseItem`: the detail page a venue opens
  (`url`) and whether it is listed under retail dining (`isCafe`). Names are
  compared as sequences of Unicode scalar values, so a name matches a literal
  only when it is spelled with the same code points (a precomposed `é`, for
  instance).
 */
module Venues {
  import opened FetchData

  const Placeholder: string := "https://example.com"
  const PageBase: string := "https://university-of-pennsylvania.cafebonappetit.com/cafe/"

  /** The detail page of the venue whose page is named `slug`; no such page
      is the placeholder. */
  function Page(slug: string): (r: string)
    ensures r != Placeholder
  {
    PageBase + slug + "/"
  }

  /** The venue names and the page each one's URL ends in, as a table. */
  const PageSlugs: map<string, string> := map[
    "1920 Commons" := "1920-commons",
    "Hill House" := "hill-house",
    "English House" := "kings-court-english-house",
    "Falk Kosher Dining" := "falk-dining-commons",
    "McClelland Express" := "mcclelland",
    "Lauder College House" := "lauder-college-house",
    "Houston Market" := "houston-market",
    "Accenture Café" := "accenture-cafe",
    "Joe’s Café" := "joes-cafe",
    "1920 Gourmet Grocer" := "1920-gourmet-grocer",
    "1920 Starbucks" := "1920-starbucks",
    "Pret a Manger MBA" := "pret-a-manger-upper",
    "Pret a Manger Locust Walk" := "pret-a-manger-lower",
    "Quaker Kitchen" := "quaker-kitchen",
    "Cafe West" := "cafe-west"
  ]

  /** `ResponseItem.url`: the detail page of each of the fifteen venues the
      switch names, and the placeholder for any other name: the switch is a
      lookup in `PageSlugs` with the placeholder as its default. */
  function Url(item: ResponseItem): (r: string)
    ensures item.name in PageSlugs ==> r == Page(PageSlugs[item.name])
    ensures r == Placeholder <==> item.name !in PageSlugs
  {
    match item.name
    case "1920 Commons" => Page("1920-commons")
    case "Hill House" => Page("hill-house")
    case "English House" => Page("kings-court-english-house")
    case "Falk Kosher Dining" => Page("falk-dining-commons")
    case "McClelland Express" => Page("mcclelland")
    case "Lauder College House" => Page("lauder-college-house")
    case "Houston Market" => Page("houston-market")
    case "Accenture Café" => Page("accenture-cafe")
    case "Joe’s Café" => Page("joes-cafe")
    case "1920 Gourmet Grocer" => Page("1920-gourmet-grocer")
    case "1920 Starbucks" => Page("1920-starbucks")
    case "Pret a Manger MBA" => Page("pret-a-manger-upper")
    case "Pret a Manger Locust Walk" => Page("pret-a-manger-lower")
    case "Quaker Kitchen" => Page("quaker-kitchen")
    case "Cafe West" => Page("cafe-west")
    case _ => Placeholder
  }

  /** The cafe names of `isCafe`, spelled as the source spells them. */
  const CafeNames: set<string> := {
    "Houstong Market", "Accenture Café", "Joe's Café", "1920 Gourmet Grocer", "1920 Starbucks",
    "Pret a Manger MBA", "Pret a Manger Locust Walk", "Quaker Kitchen", "Cafe West"
  }

  /** `ResponseItem.isCafe`: true exactly for the nine names of its
      disjunction, compared character for character. */
  function IsCafe(item: ResponseItem): (r: bool)
    ensures r <==> item.name in CafeNames
  {
    || item.name == "Houstong Market" || item.name == "Accenture Café" || item.name == "Joe's Café"
    || item.name == "1920 Gourmet Grocer" || item.name == "1920 Starbucks" || item.name == "Pret a Manger MBA"
    || item.name == "Pret a Manger Locust Walk" || item.name == "Quaker Kitchen" || item.name == "Cafe West"
  }

  /** The two tables disagree on two names: exactly the cafes spelled
      `Houstong Market` and `Joe's Café` (straight apostrophe) have no detail
      page, while `Houston Market` and `Joe’s Café` (curly apostrophe) have a
      page but are not cafes. */
  lemma CafesWithoutPage(item: ResponseItem)
    ensures IsCafe(item) && Url(item) == Placeholder <==> item.name in {"Houstong Market", "Joe's Café"}
    ensures item.name in {"Houston Market", "Joe’s Café"} ==> !IsCafe(item) && Url(item) != Placeholder
  {
  }

  /** The classification the two tables evidently mean to share: the
      `isCafe` disjunction with `Houston Market` spelled as in the URL switch
      and `Joe’s Café` with the URL switch's curly apostrophe. */
  function IsCafeIntended(item: ResponseItem): (r: bool)
    ensures r <==> item.name in CafeNames - {"Houstong Market", "Joe's Café"} + {"Houston Market", "Joe’s Café"}
  {
    || item.name == "Houston Market" || item.name == "Accenture Café" || item.name == "Joe’s Café"
    || item.name == "1920 Gourmet Grocer" || item.name == "1920 Starbucks" || item.name == "Pret a Manger MBA"
    || item.name == "Pret a Manger Locust Walk" || item.name == "Quaker Kitchen" || item.name == "Cafe West"
  }

  /** Every cafe of the intended classification opens a real detail page,
      and so does every venue the intended list moves out of the placeholder. */
  lemma IntendedCafesHavePages(item: ResponseItem)
    ensures IsCafeIntended(item) ==> Url(item) != Placeholder
    ensures IsCafeIntended(item) <==>
      (IsCafe(item) && Url(item) != Placeholder) || item.name in {"Houston Market", "Joe’s Café"}
  {
  }
}
