/**
 * The five BREAD views and the model metadata they are built for.
 */
module Views {

  /** The views a `Bread` can provide, named by their letter in `Bread.views`. */
  datatype ViewKind = Browse | Read | Edit | Add | Delete {

    /** The letter that enables the view in `Bread.views` ("BREAD"). */
    function Letter(): (c: char)
    {
      match this
      case Browse => 'B'
      case Read => 'R'
      case Edit => 'E'
      case Add => 'A'
      case Delete => 'D'
    }

    /** The `view_name` passed to `get_url_name`, also the suffix of the `may_*` key. */
    function ViewName(): (n: string)
    {
      match this
      case Browse => "browse"
      case Read => "read"
      case Edit => "edit"
      case Add => "add"
      case Delete => "delete"
    }

    /** The view class's `perm_name`; the edit view uses Django's `change`. */
    function PermName(): (n: string)
    {
      match this
      case Browse => "browse"
      case Read => "read"
      case Edit => "change"
      case Add => "add"
      case Delete => "delete"
    }

    /** Position in the order in which `get_urls` tests the letters. */
    function Rank(): (r: nat)
    {
      match this
      case Browse => 0
      case Read => 1
      case Edit => 2
      case Add => 3
      case Delete => 4
    }
  }

  /** The part of a model's `_meta` that the core reads. */
  datatype ModelMeta = ModelMeta(appLabel: string, objectName: string)
}
