/** URLs, their domains and their categories, and the pages the workers fetch. */
module Urls {
  datatype Url = Url(text: string)
  datatype Domain = Domain(name: string)
  datatype Category = Category(name: string)

  const GENERAL := Category("general")

  /** A URL's category, "general" when the domain map does not know the URL. */
  function CategoryIn(domainMap: map<Url, Category>): Url -> Category {
    (url: Url) => if url in domainMap then domainMap[url] else GENERAL
  }

  /** The chance of a block is 0 at a request count of 0, and open otherwise. */
  method IpBlockFires(requestCount: nat) returns (fires: bool)
    ensures requestCount == 0 ==> !fires
  {
    fires := *;
    if requestCount == 0 { fires := false; }
  }
}
