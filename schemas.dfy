/** The request document's shape (src/schemas.py), without its validation. */
module Schemas {
  import opened Wrappers

  /** The search category; `Value` is the literal sent as the `type` query parameter. */
  datatype SearchType = Repositories | Issues | Wikis {

    function Value(): string
    {
      match this
      case Repositories => "Repositories"
      case Issues => "Issues"
      case Wikis => "Wikis"
    }
  }

  /** The enum lookup by value, `TypeEnum(s)`: the member whose value is `s`, or none. */
  function SearchTypeOf(s: string): (r: Option<SearchType>)
    ensures r.Some? ==> r.value.Value() == s
    ensures r.None? ==> s != "Repositories" && s != "Issues" && s != "Wikis"
  {
    if s == "Repositories" then Some(Repositories)
    else if s == "Issues" then Some(Issues)
    else if s == "Wikis" then Some(Wikis)
    else None
  }

  /** Every member's value looks up that member again, so distinct members have distinct values. */
  lemma ValueRoundTrip(t: SearchType)
    ensures SearchTypeOf(t.Value()) == Some(t)
  {
    match t
    case Repositories =>
    case Issues =>
      assert |"Issues"| != |"Repositories"|;
    case Wikis =>
      assert |"Wikis"| != |"Repositories"| && |"Wikis"| != |"Issues"|;
  }

  /** A validated search request: keywords, category and the raw proxy pool. */
  datatype SearchParams = SearchParams(keywords: seq<string>, searchType: SearchType, proxies: seq<string>)
}
