# django_bread core, modelled in Dafny

django_bread builds the five BREAD views (Browse, Read, Edit, Add, Delete) of a
Django model from one `Bread` object. This project models the deterministic
parts of `bread/bread.py`:

- **Label/value resolver** (module `Fields`, `fields.dfy`). `LabelValueReadView`
  resolves each `(label, evaluator)` pair of `fields` in one of five modes:
  - an attribute of the object;
  - a method of the object, called with no arguments;
  - a literal string;
  - a callable applied to the context;
  - the `str()` of any other value.
  
  `read_fields` is the list of these resolved pairs. The displayed object is a
  member table mapping names to `Attr(value)` or `Method(result)`. An evaluator
  is a tagged datatype. `get_verbose_name` and `str()` are passed in as
  functions.
- **The `Bread` object** (module `Routes`, `routes.dfy`). This covers:
  - the constructor's normalisation of `name`, `views` and `plural_name`;
  - `get_url_name` and the per-view URL-name wrappers;
  - `get_urls`, as a method that appends one route per enabled view, in the
    source's order.
  
  A route is the view, its URL name and the text of its regular expression.
  The case conversions `str.lower()` and `str.upper()` are in module `Ascii`.
- **Pagination links** (module `Pagination`, `pagination.dfy`). These are the
  `next_url`, `last_url`, `first_url` and `previous_url` entries of
  `BrowseView.get_context_data`, and `_get_new_url`:
  - `_get_new_url` copies the request's query parameters and overrides the
    named ones.
  - A URL is its path and its parameter map.
  - Django's `Page` (`has_next`, `has_previous`, the neighbouring page
    numbers) is written out the way Django defines it.
- **Permissions** (module `Permissions`, `permissions.dfy`). This covers:
  - `get_full_perm_name`;
  - the permission codename;
  - the `may_*` context flags. `has_perm` is passed in as a function.

`Views` holds the five view kinds, with their letters, view names, permission
names and order. `Strings` finds a separator in a formatted name, for the
round trips of URL names and permission names. `Wrappers` holds `Option`.

The class docstring of `LabelValueReadView` (bread/bread.py:233-234) says a
`None` label requires the evaluator to be a model field. The code does not
enforce this. A `None` label with a string evaluator that names no member of
the object takes mode 3 (bread/bread.py:280-282), so the result is the
evaluator string with the label still `None`. `ResolveField` does the same.

## Model

| member | source | states |
|---|---|---|
| Fields.ModeOf | bread/bread.py:236-244 | The five documented modes are exclusive and tried in order. A string naming a member is mode 1 exactly when the member is not callable and mode 2 exactly when it is. A string naming no member is mode 3. A non-string callable is mode 4. Anything else is mode 5. |
| Fields.ResolveField | bread/bread.py:265-290 | Per mode, the resolved value is one of: the attribute's value; the method's result; the evaluator string itself; the callable applied to the context; `str()` of the evaluator. A given label is kept. A `None` label becomes `get_verbose_name(object, evaluator)` in modes 1 and 2 and stays `None` in modes 3-5. |
| Fields.ReadFields | bread/bread.py:257-263 | `read_fields` has one entry per element of `fields`. Entry `i` is the resolution of the `i`-th `(label, evaluator)` pair against the same object and context. |
| Fields.ReadFieldsAppend | bread/bread.py:260-261 | Resolving a concatenation of field lists is the concatenation of their resolutions: in the model the entry for a pair depends only on that pair, the object and the context. |
| Fields.ReadFieldsFrame | bread/bread.py:271-286 | Two objects give the same `read_fields` when three conditions hold. They agree, by presence and content, on the members that the string evaluators name. `get_verbose_name` gives them the same label for every unlabelled string evaluator. Every callable evaluator returns the same value on their two contexts. |
| Routes.Bread.constructor | bread/bread.py:378-383 | `name` is the model's object name in lower case. `views` is upper-cased. `plural_name` is the given value when one is given and non-empty, else `name + "s"`; it is never empty. |
| Routes.Bread.UrlName | bread/bread.py:472-480 | With the namespace asked for and set, the URL name starts with `namespace + ":"`; otherwise it starts with `view_name + "_"`. `UrlNameSplits` states the whole namespaced name. |
| Routes.Bread.UrlNameSplits | bread/bread.py:472-480 | The namespaced name is `namespace + ":"` in front of the plain URL name when the namespace is non-empty, and the plain name itself when it is empty, for any namespace, nested ones with colons included. Round trip: when the namespace has no colon, the namespaced name, as `browse_url_name()` hands it to `reverse_lazy` (bread/bread.py:160), splits at its first colon back into the namespace and the plain name. |
| Routes.Bread.ViewUrlName | bread/bread.py:406-461 | Without the namespace, each view's URL name is the one in the `get_urls` docstring table (bread/bread.py:488-494): `browse_<plural_name>`, and `read_<name>`, `edit_<name>`, `add_<name>`, `delete_<name>`. |
| Routes.Bread.ViewUrlNameSplits | bread/bread.py:488-494 | A plain view URL name splits at its first underscore back into the view name and the plural name (browse) or the model name (every other view). |
| Routes.Bread.ViewUrlNamesDistinct | bread/bread.py:406-480 | The five `<view>_url_name` methods give five different names, with or without the namespace. |
| Routes.PatternTail | bread/bread.py:512-539 | Every pattern tail ends in `$`. The tail captures the primary key `(?P<pk>\d+)/` exactly for read, edit and delete. |
| Routes.Bread.RouteFor | bread/bread.py:512-539 | The route of a view serves that view. It is named by the view's URL name without the namespace. Its pattern starts with `^` and the path prefix and ends in `$`. |
| Routes.Bread.RoutePatternsDistinct | bread/bread.py:508-540 | The five URL patterns differ under any common path prefix. |
| Routes.Bread.GetUrls | bread/bread.py:482-540 | Routes are named as follows: `get_url_name(view, include_namespace=False)`. Each pattern is `^`, then `plural_name + "/"` when `prefix` holds, then the view's tail. Exactly one route is emitted per view whose letter is in `views`. Routes come in B, R, E, A, D order. Names and patterns are pairwise distinct. |
| Routes.ViewLetterAnyCase | bread/bread.py:379-380 | In the model, after the constructor upper-cases `views`, a view's letter is present exactly when it was given in upper or lower case. |
| Pagination.MergedOverrides | bread/bread.py:118-119 | The contract of `Merged`, the parameters `dict(request.GET)` updated with `query_parms`. The merged query has the request's keys plus the given ones. Given keys take the given value. Every other request parameter keeps its values. |
| Pagination.NewUrl | bread/bread.py:115-120 | `_get_new_url` returns the request path with the merged query, i.e. the copy of `request.GET` updated with the given parameters. |
| Pagination.PageUrlKeepsQuery | bread/bread.py:118-120 | The contract of `PageUrl`, the URL `_get_new_url(page=n)` returns. A page link keeps the path and every query parameter other than `page`. It sets `page` to the given number and adds no other key. |
| Pagination.Target | bread/bread.py:191-201 | Which links are set: `last_url` exactly when the page has a next page; `next_url` exactly when it has one other than `num_pages`; `first_url` exactly when it has a previous page; `previous_url` exactly when it has one other than page 1. The pages they lead to: next page number, `num_pages`, 1, previous page number. |
| Pagination.PaginationLinks | bread/bread.py:186-202 | A link entry is written exactly when the context is paginated and `Target` selects that link. Each written link is the page URL of its target page, built by `_get_new_url(page=...)`. |
| Pagination.TargetsInRange | bread/bread.py:191-201 | On a page numbered 1 to `num_pages`, every link leads to an existing page other than the current one. Next comes before last, and first before previous. |
| Permissions.FullPermName | bread/bread.py:53-58 | The full permission name is the app label, a dot, and the codename `<perm_name>_<model>` that the view constructor looks up. |
| Permissions.CodenameSplits | bread/bread.py:63 | The codename `<perm_name>_<model>` splits at its first underscore back into the permission name and the lower-cased model name, when the permission name has no underscore (true of all five `perm_name`s). |
| Permissions.RequiredPerm | bread/bread.py:47-49 | For the default view classes, a view requires the full permission named after the view, except the edit view, whose `perm_name` is `change`. The `perm_name` class attributes are at bread/bread.py:170, 212, 294, 305 and 316. |
| Permissions.FullPermNameSplits | bread/bread.py:53-63 | If the app label contains no dot, the full name splits at its first dot back into the app label and the codename. |
| Permissions.RequiredPermsDistinct | bread/bread.py:47-49 | Different views require different permissions. |
| Permissions.ComputeMayFlags | bread/bread.py:136-145 | `may_<view>` is true exactly when the view's letter is in `views` and `has_perm` holds for the full name built from the fixed name `browse`, `read`, `change`, `add` or `delete`. |
| Ascii.Lower | bread/bread.py:379 | `Ascii.Lower` keeps the length and lowers each character on its own. It models `str.lower()` on ASCII only (see "## Left out"). |
| Ascii.Upper | bread/bread.py:380 | `Ascii.Upper` keeps the length and raises each character on its own. It models `str.upper()` on ASCII only (see "## Left out"). |
| Ascii.UpperContains | bread/bread.py:380 | An upper-case letter is in the upper-cased string exactly when it, or its lower-case partner, is in the original. |
| Ascii.UpperIdempotent | bread/bread.py:380 | Upper-casing twice is upper-casing once, so `views` is already normal after the constructor. |

## Left out

- The login redirect, `PermissionDenied` and `dispatch` (bread/bread.py:60-100) are not modelled. They are authentication flow and I/O in Django.
- The `Permission`/`ContentType` database query in `BreadViewMixin.__init__` is not modelled, nor the `ImproperlyConfigured` error raised when the permission is missing. The ORM is not visible. The codename the query looks up is modelled as `Permissions.Codename`.
- Form construction (`get_form`, `modelform_factory`) and `form_invalid` are not modelled. They are thin wrappers over Django forms.
- `get_template_names` is not modelled, because its result depends on the template names of the unseen superclasses. The settings lookup is not modelled, and neither are the filterset querysets of `BrowseView.get_queryset`.
- `get_verbose_name` and `validate_fieldspec` come from `bread/utils.py`, which is not part of this model. `get_verbose_name` is the parameter `verboseName` and is total. Consequently:
  - the error it raises for a name without field metadata is not modelled;
  - the column validation of `Bread.__init__` is not modelled.
- `Bread.__init__`'s `TypeError` for a model that is not a `Model` subclass is not modelled. Neither are its `ValueError`s for the legacy `paginate_by`, `columns`, `filter` and `filterset` attributes. These are reflection over class attributes. `ModelMeta` stands only for a real model.
- Exceptions raised by a member, by a callable evaluator or by `str()` do not propagate in the model. Calls are modelled as total functions, and a method member is represented by its result.
- Side effects of member calls and callable evaluators are not modelled. In the source, every callable receives the same `context_data` dict, and a method or callable may change it or `self.object`, which can change how later pairs resolve. The model resolves each pair against an unchanging object and context.
- Fields.ReadFieldsFrame: the context is modelled apart from the object. In the source, the context holds the object as `context_data['object']` (bread/bread.py:242-243), so a callable can read members no string evaluator names. The lemma therefore requires the callables to agree on the two contexts instead of claiming the object is read only through the named members. Likewise `get_verbose_name` receives the object (bread/bread.py:279), so the lemma requires it to give both objects the same labels.
- `urlencode` is left abstract: a URL is its path and its parameter map. `url()` objects are reduced to their pattern text and name. `reverse_lazy` and the view objects of `get_*_view`/`as_view` are not modelled. A `Route` records which view it serves.
- The rest of the context dictionary is not modelled: `bread`, `verbose_name`, `verbose_name_plural`, `base_template`, `columns`, `filter` and the `form` of the read view. Only the `may_*` flags, the pagination links and `read_fields` are modelled, each as the value its code computes.
- `Ascii.Lower` and `Ascii.Upper` change ASCII letters only and keep the length. Python's full Unicode case mapping is not modelled; it can change the length of a string (`'ß'.upper()` is `'SS'`), and it can produce an ASCII letter from a non-ASCII character (`'\u1e9a'.upper()` is `'A\u02be'`), so such a character in `views` turns on the Add view. `Routes.ViewLetterAnyCase` covers ASCII case only.
- Permissions.RequiredPerm: `perm_name` is fixed at the five class defaults (bread/bread.py:170, 212, 294, 305 and 316). A subclass may override `perm_name`, and a `Bread` may swap in other view classes (bread/bread.py:364-368); neither is modelled. The `may_*` flags check the fixed names `browse`, `read`, `change`, `add` and `delete` (bread/bread.py:136-145), so they match `permission_required` only for those defaults.
- `Pagination.PaginationLinks` models Django's `Page` by its page number and `num_pages`. Paginator validation of page numbers is not modelled, so `TargetsInRange` assumes a page the paginator can produce.
