/** The attributes a client-attribute template marks its elements with, and the error texts
    it attaches to them. */
module XmlMarks {
  import opened Wrappers
  import opened XmlTree

  const CLIENT_ATTRIBUTE := "clientAttribute"
  const PATH := "path"
  const PERSONAL_DATA := "personalData"
  const ERROR_DESCRIPTION := "errorDescription"
  const PREFIX_ERROR_DESCRIPTION := "prefixDescription"
  const POSTFIX_ERROR_DESCRIPTION := "postfixDescription"

  /** nodeHasClientAttributeMark: the element is a client attribute to compare. */
  predicate NodeHasClientAttributeMark(n: XNode)
    ensures NodeHasClientAttributeMark(n) <==> n.Element? && CLIENT_ATTRIBUTE in n.attrs && n.attrs[CLIENT_ATTRIBUTE] == "true"
  {
    HasMark(n, CLIENT_ATTRIBUTE)
  }

  /** nodeHasPathMark: the element identifies its parent among its siblings. */
  predicate NodeHasPathMark(n: XNode)
    ensures NodeHasPathMark(n) <==> n.Element? && PATH in n.attrs && n.attrs[PATH] == "true"
  {
    HasMark(n, PATH)
  }

  /** nodeHasPersonalDataMark: the element's text is stored hashed. */
  predicate NodeHasPersonalDataMark(n: XNode)
    ensures NodeHasPersonalDataMark(n) <==> n.Element? && PERSONAL_DATA in n.attrs && n.attrs[PERSONAL_DATA] == "true"
  {
    HasMark(n, PERSONAL_DATA)
  }

  /** XmlUtils.getErrorDescription: the errorDescription attribute, or null. */
  function GetErrorDescription(n: XNode): (r: Option<string>)
    ensures r.Some? <==> n.Element? && ERROR_DESCRIPTION in n.attrs
    ensures r.Some? ==> r.value == n.attrs[ERROR_DESCRIPTION]
  {
    Attribute(n, ERROR_DESCRIPTION)
  }

  /** XmlUtils.getPrefixDescription. */
  function GetPrefixDescription(n: XNode): (r: Option<string>)
    ensures r.Some? <==> n.Element? && PREFIX_ERROR_DESCRIPTION in n.attrs
    ensures r.Some? ==> r.value == n.attrs[PREFIX_ERROR_DESCRIPTION]
  {
    Attribute(n, PREFIX_ERROR_DESCRIPTION)
  }

  /** XmlUtils.getPostfixDescription. */
  function GetPostfixDescription(n: XNode): (r: Option<string>)
    ensures r.Some? <==> n.Element? && POSTFIX_ERROR_DESCRIPTION in n.attrs
    ensures r.Some? ==> r.value == n.attrs[POSTFIX_ERROR_DESCRIPTION]
  {
    Attribute(n, POSTFIX_ERROR_DESCRIPTION)
  }
}
