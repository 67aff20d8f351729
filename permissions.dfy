/**
 * Permission names and the `may_*` flags every BREAD view puts in its context.
 */
module Permissions {

  import opened Views
  import Ascii
  import Strings

  /** The permission codename that `BreadViewMixin.__init__` looks up: `<perm_name>_<model>`. */
  function Codename(model: ModelMeta, shortName: string): (c: string)
  {
    shortName + "_" + Ascii.Lower(model.objectName)
  }

  /**
   * A codename whose permission name has no underscore splits at its first
   * underscore back into the permission name and the lower-cased model name.
   */
  lemma CodenameSplits(model: ModelMeta, shortName: string)
    requires '_' !in shortName
    ensures var c := Codename(model, shortName);
            var i := Strings.FirstOf(c, '_');
            i < |c| && c[..i] == shortName && c[i + 1..] == Ascii.Lower(model.objectName)
  {
    Strings.SplitAtFirst(shortName, '_', Ascii.Lower(model.objectName));
  }

  /**
   * `get_full_perm_name(short_name)`: `<app_label>.<perm_name>_<model>`, the
   * app label, a dot and the codename that the constructor checks exists.
   */
  function FullPermName(model: ModelMeta, shortName: string): (r: string)
    ensures r == model.appLabel + "." + Codename(model, shortName)
  {
    model.appLabel + "." + shortName + "_" + Ascii.Lower(model.objectName)
  }

  /**
   * `permission_required` for the default view classes: the full name of the
   * view's `perm_name` class attribute, which is the view's name except for the
   * edit view, which uses Django's `change`.
   */
  function RequiredPerm(model: ModelMeta, k: ViewKind): (r: string)
    ensures k == Edit ==> r == FullPermName(model, "change")
    ensures k != Edit ==> r == FullPermName(model, k.ViewName())
  {
    FullPermName(model, k.PermName())
  }

  /**
   * A full permission name whose app label has no dot splits back at its first
   * dot into the app label and the codename.
   */
  lemma FullPermNameSplits(model: ModelMeta, shortName: string)
    requires '.' !in model.appLabel
    ensures var s := FullPermName(model, shortName);
            var i := Strings.FirstOf(s, '.');
            i < |s| && s[..i] == model.appLabel && s[i + 1..] == Codename(model, shortName)
  {
    Strings.SplitAtFirst(model.appLabel, '.', Codename(model, shortName));
  }

  /** Different views require different permissions. */
  lemma RequiredPermsDistinct(model: ModelMeta, k1: ViewKind, k2: ViewKind)
    requires k1 != k2
    ensures RequiredPerm(model, k1) != RequiredPerm(model, k2)
  {
    var p := model.appLabel + ".";
    var r1, r2 := RequiredPerm(model, k1), RequiredPerm(model, k2);
    assert |p| < |r1| && r1[|p|] == k1.PermName()[0];
    assert |p| < |r2| && r2[|p|] == k2.PermName()[0];
  }

  /** The context entries `may_browse`, `may_read`, `may_edit`, `may_add` and `may_delete`. */
  datatype MayFlags = MayFlags(browse: bool, read: bool, edit: bool, add: bool, delete: bool) {
    function Of(k: ViewKind): (flag: bool)
    {
      match k
      case Browse => browse
      case Read => read
      case Edit => edit
      case Add => add
      case Delete => delete
    }
  }

  /**
   * The `may_*` entries of `BreadViewMixin.get_context_data`: a view's flag is
   * set exactly when its letter is in the `views` of the `Bread` and the user
   * holds the full permission name built from the fixed names `browse`, `read`,
   * `change`, `add` or `delete`. These are the `perm_name` defaults, so they are
   * what `RequiredPerm` gives. Permission checks are the function `hasPerm`.
   */
  method ComputeMayFlags(views: string, model: ModelMeta, hasPerm: string -> bool) returns (may: MayFlags)
    ensures forall k: ViewKind :: may.Of(k) == (k.Letter() in views && hasPerm(FullPermName(model, k.PermName())))
  {
    var mayBrowse := 'B' in views && hasPerm(FullPermName(model, "browse"));
    var mayRead := 'R' in views && hasPerm(FullPermName(model, "read"));
    var mayEdit := 'E' in views && hasPerm(FullPermName(model, "change"));
    var mayAdd := 'A' in views && hasPerm(FullPermName(model, "add"));
    var mayDelete := 'D' in views && hasPerm(FullPermName(model, "delete"));
    may := MayFlags(mayBrowse, mayRead, mayEdit, mayAdd, mayDelete);
    forall k: ViewKind
      ensures may.Of(k) == (k.Letter() in views && hasPerm(FullPermName(model, k.PermName())))
    {
      match k
      case Browse =>
      case Read =>
      case Edit =>
      case Add =>
      case Delete =>
    }
  }
}
