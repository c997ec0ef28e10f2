/**
 * What `strip_tags` does with one HTML tag once its regular expressions have
 * found it: drop tags that are not allowed, lower-case the tag name, keep only
 * the quoted attributes allowed for the tag or for every tag (`*`), and turn
 * `href` values that start with `javascript:` into `#`.
 *
 * A tag arrives already tokenised: whether it is a closing tag (`</...>`),
 * its name as written, whether its parameter text ended in `/`, and its
 * parameter text (trimmed, with that `/` removed) cut into the quoted
 * attributes the attribute pattern finds and the text between them.
 */
module StripTags {
  import opened Wrappers
  import opened Strings

  /** A piece of a tag's parameter text. */
  datatype Piece =
    | Text(text: string)
      /** `space name = quote value quote`, as the attribute pattern matched it. */
    | Attr(space: string, name: string, quote: char, value: string)

  /** One tag as the tag pattern `<(\/?)\s*([\w:\-]+)([^>]*)>` matched it. */
  datatype TagToken = TagToken(closing: bool, name: string, selfClosing: bool, params: seq<Piece>)

  /** The tags allowed when the caller gives none, in `tag1|tag2` form. */
  const DefaultAllowedTags: string :=
    "a|b|blockquote|code|del|dd|dl|dt|em|h1|h2|h3|" +
    "i|img|li|ol|p|pre|sup|sub|strong|strike|ul|br|hr|" +
    "table|thead|th|tbody|tr|td|div|span"

  /** The attributes allowed when the caller gives none, per tag and for every tag (`*`). */
  function DefaultAllowedAttributes(): map<string, string>
  {
    map[
      "img" := "src|width|height|alt",
      "a" := "href",
      "table" := "cellspacing",
      "*" := "title|id|class"
    ]
  }

  /** `arguments[1] || default`: a missing or empty list means the default list. */
  function AllowedTags(given: Option<string>): (r: string)
    ensures given.Some? && given.value != "" ==> r == given.value
    ensures given.None? || given.value == "" ==> r == DefaultAllowedTags
  {
    if given.Some? && given.value != "" then given.value else DefaultAllowedTags
  }

  /** `arguments[2] || default`: any given object, even an empty one, replaces the default. */
  function AllowedAttributes(given: Option<map<string, string>>): (r: map<string, string>)
    ensures given.Some? ==> r == given.value
    ensures given.None? ==> r == DefaultAllowedAttributes()
  {
    if given.Some? then given.value else DefaultAllowedAttributes()
  }

  /** `name.match(new RegExp('^(' + list.toLowerCase() + ')$'))` for a `|`-separated list of names. */
  predicate Matches(name: string, list: string)
  {
    name in Split(Lower(list), '|')
  }

  /** The tag may keep the attribute `name` (both already lower-cased). */
  predicate AttrAllowed(attributes: map<string, string>, tag: string, name: string)
  {
    || ("*" in attributes && Matches(name, attributes["*"]))
    || (tag in attributes && Matches(name, attributes[tag]))
  }

  /** The value kept for an attribute: `#` for an `href` that starts with `javascript:` after trimming. */
  function SafeValue(name: string, value: string): (r: string)
    ensures Lower(name) == "href" && StartsWith(Trim(value), "javascript:") ==> r == "#"
    ensures !(Lower(name) == "href" && StartsWith(Trim(value), "javascript:")) ==> r == value
  {
    if Lower(name) == "href" && StartsWith(Trim(value), "javascript:") then "#" else value
  }

  /** The attribute replacement: allowed attributes with a lower-cased name and a safe value, nothing else. */
  function FilterPiece(attributes: map<string, string>, tag: string, p: Piece): (r: seq<Piece>)
    ensures |r| <= 1
    ensures p.Text? ==> r == [p]
    ensures p.Attr? ==> (r != [] <==> AttrAllowed(attributes, tag, Lower(p.name)))
    ensures p.Attr? && r != [] ==> r[0].Attr? && r[0].space == p.space && r[0].name == Lower(p.name) && r[0].quote == p.quote
  {
    match p
    case Text(_) => [p]
    case Attr(space, name, quote, value) =>
      if AttrAllowed(attributes, tag, Lower(name))
      then [Attr(space, Lower(name), quote, SafeValue(name, value))]
      else []
  }

  /** The parameter text after the attribute replacement, as pieces. */
  function FilterParams(attributes: map<string, string>, tag: string, ps: seq<Piece>): (r: seq<Piece>)
    ensures |r| <= |ps|
  {
    if |ps| == 0 then [] else FilterPiece(attributes, tag, ps[0]) + FilterParams(attributes, tag, ps[1..])
  }

  /** The text of a piece: `space + name + '=' + quot + value + quot` for an attribute. */
  function PieceText(p: Piece): string
  {
    match p
    case Text(t) => t
    case Attr(space, name, quote, value) => space + name + "=" + [quote] + value + [quote]
  }

  function Render(ps: seq<Piece>): string
  {
    if |ps| == 0 then "" else PieceText(ps[0]) + Render(ps[1..])
  }

  function Slash(present: bool): string
  {
    if present then "/" else ""
  }

  /** What `strip_tags` puts in place of one tag. */
  function StripTag(allowedTags: string, attributes: map<string, string>, t: TagToken): (r: string)
    ensures r == "" <==> !Matches(Lower(t.name), allowedTags)
    ensures r != "" ==> StartsWith(r, "<" + Slash(t.closing) + Lower(t.name))
    ensures r != "" ==> |r| >= 1 + |Slash(t.selfClosing)| && r[|r| - 1 - |Slash(t.selfClosing)|..] == Slash(t.selfClosing) + ">"
  {
    var tag := Lower(t.name);
    var open := "<" + Slash(t.closing) + tag;
    var close := Slash(t.selfClosing) + ">";
    if !Matches(tag, allowedTags) then ""
    else if !(tag in attributes) && !("*" in attributes) then
      assert (open + close)[..|open|] == open;
      open + close
    else
      var params := Render(FilterParams(attributes, tag, t.params));
      var middle := if params != "" then " " + params else "";
      assert (open + middle + close)[..|open|] == open;
      assert (open + middle + close)[|open + middle|..] == close;
      open + middle + close
  }

  /**
   * The whole replacement of an allowed tag: `<`, the closing slash, the
   * lower-cased name, then (when the tag or `*` has an attribute list and
   * anything survives the filter) a space and the filtered parameter text,
   * then the self-closing slash and `>`. Every attribute in that text is
   * safe, and the attributes are exactly the allowed ones, in order.
   */
  lemma StripTagParts(allowedTags: string, attributes: map<string, string>, t: TagToken)
    requires Matches(Lower(t.name), allowedTags)
    ensures var tag := Lower(t.name);
      var kept := FilterParams(attributes, tag, t.params);
      var ps := Render(kept);
      && StripTag(allowedTags, attributes, t) ==
           "<" + Slash(t.closing) + tag
           + (if (tag in attributes || "*" in attributes) && ps != "" then " " + ps else "")
           + Slash(t.selfClosing) + ">"
      && (forall i :: 0 <= i < |kept| && kept[i].Attr? ==> SafeAttr(attributes, tag, kept[i]))
      && AttrNames(kept) == AllowedNames(attributes, tag, t.params)
  {
    FilteredAttributesAreSafe(attributes, Lower(t.name), t.params);
    FilterKeepsAllowedAndText(attributes, Lower(t.name), t.params);
  }

  /** An attribute the filter may emit: allowed, lower-case name, no `javascript:` href. */
  predicate SafeAttr(attributes: map<string, string>, tag: string, p: Piece)
    requires p.Attr?
  {
    && AttrAllowed(attributes, tag, p.name)
    && p.name == Lower(p.name)
    && !(p.name == "href" && StartsWith(Trim(p.value), "javascript:"))
  }

  /** The value the filter keeps is never a `javascript:` link. */
  lemma SafeValueSafe(name: string, value: string)
    ensures !(Lower(name) == "href" && StartsWith(Trim(SafeValue(name, value)), "javascript:"))
  {
    if Lower(name) == "href" && StartsWith(Trim(value), "javascript:") {
      TrimHash();
    }
  }

  /** An allowed attribute comes out of the filter safe. */
  lemma FilteredAttrSafe(attributes: map<string, string>, tag: string,
                         space: string, name: string, quote: char, value: string)
    requires AttrAllowed(attributes, tag, Lower(name))
    ensures SafeAttr(attributes, tag, Attr(space, Lower(name), quote, SafeValue(name, value)))
  {
    LowerIdempotent(name);
    SafeValueSafe(name, value);
  }

  /** One piece through the filter: every attribute it yields is safe. */
  lemma FilterPieceSafe(attributes: map<string, string>, tag: string, p: Piece)
    ensures forall i :: 0 <= i < |FilterPiece(attributes, tag, p)| && FilterPiece(attributes, tag, p)[i].Attr? ==>
              SafeAttr(attributes, tag, FilterPiece(attributes, tag, p)[i])
  {
    match p
    case Text(_) =>
    case Attr(space, name, quote, value) =>
      if AttrAllowed(attributes, tag, Lower(name)) {
        FilteredAttrSafe(attributes, tag, space, name, quote, value);
        assert FilterPiece(attributes, tag, p) == [Attr(space, Lower(name), quote, SafeValue(name, value))];
      }
  }

  /** Every attribute that survives is allowed, has a lower-case name and no `javascript:` href. */
  lemma {:induction false} FilteredAttributesAreSafe(attributes: map<string, string>, tag: string, ps: seq<Piece>)
    ensures forall i :: 0 <= i < |FilterParams(attributes, tag, ps)| && FilterParams(attributes, tag, ps)[i].Attr? ==>
              SafeAttr(attributes, tag, FilterParams(attributes, tag, ps)[i])
  {
    if |ps| > 0 {
      FilteredAttributesAreSafe(attributes, tag, ps[1..]);
      FilterPieceSafe(attributes, tag, ps[0]);
      var head: seq<Piece> := FilterPiece(attributes, tag, ps[0]);
      var tail: seq<Piece> := FilterParams(attributes, tag, ps[1..]);
      assert FilterParams(attributes, tag, ps) == head + tail;
      forall i | 0 <= i < |head + tail| && (head + tail)[i].Attr?
        ensures SafeAttr(attributes, tag, (head + tail)[i])
      {
        if i < |head| {
          assert (head + tail)[i] == head[i];
        } else {
          assert (head + tail)[i] == tail[i - |head|];
        }
      }
    }
  }

  /** `'#'.trim()` is `'#'`, which does not start with `javascript:`. */
  lemma TrimHash()
    ensures Trim("#") == "#"
  {
    assert TrimStart("#") == "#";
    assert TrimEnd("#") == "#";
  }

  /** The attribute names a piece sequence holds, in order. */
  function AttrNames(ps: seq<Piece>): seq<string>
  {
    if |ps| == 0 then []
    else if ps[0].Attr? then [ps[0].name] + AttrNames(ps[1..])
    else AttrNames(ps[1..])
  }

  /** The lower-cased names of the allowed attributes among the pieces, in order. */
  function AllowedNames(attributes: map<string, string>, tag: string, ps: seq<Piece>): seq<string>
  {
    if |ps| == 0 then []
    else if ps[0].Attr? && AttrAllowed(attributes, tag, Lower(ps[0].name))
    then [Lower(ps[0].name)] + AllowedNames(attributes, tag, ps[1..])
    else AllowedNames(attributes, tag, ps[1..])
  }

  /** The texts between attributes, in order. */
  function Texts(ps: seq<Piece>): seq<string>
  {
    if |ps| == 0 then []
    else if ps[0].Text? then [ps[0].text] + Texts(ps[1..])
    else Texts(ps[1..])
  }

  /** Appending pieces appends their names and texts. */
  lemma {:induction false} NamesAndTextsDistribute(xs: seq<Piece>, ys: seq<Piece>)
    ensures AttrNames(xs + ys) == AttrNames(xs) + AttrNames(ys)
    ensures Texts(xs + ys) == Texts(xs) + Texts(ys)
  {
    if |xs| > 0 {
      assert (xs + ys)[1..] == xs[1..] + ys;
      NamesAndTextsDistribute(xs[1..], ys);
    } else {
      assert xs + ys == ys;
    }
  }

  /**
   * Filtering keeps exactly the allowed attributes, in their order, and
   * every piece of text between attributes, unchanged.
   */
  lemma {:induction false} FilterKeepsAllowedAndText(attributes: map<string, string>, tag: string, ps: seq<Piece>)
    ensures AttrNames(FilterParams(attributes, tag, ps)) == AllowedNames(attributes, tag, ps)
    ensures Texts(FilterParams(attributes, tag, ps)) == Texts(ps)
  {
    if |ps| > 0 {
      FilterKeepsAllowedAndText(attributes, tag, ps[1..]);
      NamesAndTextsDistribute(FilterPiece(attributes, tag, ps[0]), FilterParams(attributes, tag, ps[1..]));
    }
  }

  /** A filtered attribute passes the filter unchanged. */
  lemma FilteredAttrStable(attributes: map<string, string>, tag: string,
                           space: string, name: string, quote: char, value: string)
    requires AttrAllowed(attributes, tag, Lower(name))
    ensures var q := Attr(space, Lower(name), quote, SafeValue(name, value));
      FilterPiece(attributes, tag, q) == [q]
  {
    LowerIdempotent(name);
    SafeValueSafe(name, value);
    assert SafeValue(Lower(name), SafeValue(name, value)) == SafeValue(name, value);
  }

  /** A filtered piece passes the filter unchanged. */
  lemma FilterPieceIdempotent(attributes: map<string, string>, tag: string, p: Piece)
    ensures FilterParams(attributes, tag, FilterPiece(attributes, tag, p)) == FilterPiece(attributes, tag, p)
  {
    match p
    case Text(_) =>
      assert FilterPiece(attributes, tag, p) == [p];
      assert [p][1..] == [];
    case Attr(space, name, quote, value) =>
      if AttrAllowed(attributes, tag, Lower(name)) {
        var q := Attr(space, Lower(name), quote, SafeValue(name, value));
        FilteredAttrStable(attributes, tag, space, name, quote, value);
        assert FilterPiece(attributes, tag, p) == [q];
        assert [q][1..] == [];
      }
  }

  /** Filtering an already filtered parameter list changes nothing. */
  lemma {:induction false} FilterIdempotent(attributes: map<string, string>, tag: string, ps: seq<Piece>)
    ensures FilterParams(attributes, tag, FilterParams(attributes, tag, ps)) == FilterParams(attributes, tag, ps)
  {
    if |ps| > 0 {
      var head := FilterPiece(attributes, tag, ps[0]);
      var tail := FilterParams(attributes, tag, ps[1..]);
      FilterIdempotent(attributes, tag, ps[1..]);
      FilterDistributes(attributes, tag, head, tail);
      FilterPieceIdempotent(attributes, tag, ps[0]);
    }
  }

  /** Filtering distributes over concatenation. */
  lemma {:induction false} FilterDistributes(attributes: map<string, string>, tag: string, xs: seq<Piece>, ys: seq<Piece>)
    ensures FilterParams(attributes, tag, xs + ys) == FilterParams(attributes, tag, xs) + FilterParams(attributes, tag, ys)
  {
    if |xs| > 0 {
      assert (xs + ys)[1..] == xs[1..] + ys;
      FilterDistributes(attributes, tag, xs[1..], ys);
    } else {
      assert xs + ys == ys;
    }
  }

  /** `'HREF'` lower-cases to `'href'`, and a `javascript:` value becomes `'#'`. */
  lemma ExampleHrefRewritten()
    ensures Lower("HREF") == "href"
    ensures SafeValue("HREF", "javascript:x") == "#"
  {
    assert Lower("HREF") == "href";
    assert TrimStart("javascript:x") == "javascript:x";
    assert TrimEnd("javascript:x") == "javascript:x";
  }

  /** An allowed `href` whose trimmed value starts with `javascript:` comes out as `href` with value `#`. */
  lemma JavascriptHrefBecomesHash(attributes: map<string, string>, tag: string,
                                  space: string, name: string, quote: char, value: string)
    requires Lower(name) == "href" && StartsWith(Trim(value), "javascript:")
    requires AttrAllowed(attributes, tag, "href")
    ensures FilterPiece(attributes, tag, Attr(space, name, quote, value)) == [Attr(space, "href", quote, "#")]
  {
  }

  /** Every allow-list lower-cased, as the conversion of the lists into patterns does. */
  function LowerLists(attributes: map<string, string>): (r: map<string, string>)
    ensures r.Keys == attributes.Keys
    ensures forall k :: k in attributes ==> r[k] == Lower(attributes[k])
  {
    map k | k in attributes :: Lower(attributes[k])
  }

  /**
   * Allow-lists are case-insensitive: lower-casing every list first allows
   * exactly the same attribute names.
   */
  lemma AttrAllowedIgnoresListCase(attributes: map<string, string>, tag: string, name: string)
    ensures AttrAllowed(LowerLists(attributes), tag, name) <==> AttrAllowed(attributes, tag, name)
  {
    if "*" in attributes {
      LowerIdempotent(attributes["*"]);
    }
    if tag in attributes {
      LowerIdempotent(attributes[tag]);
    }
  }

  /** A tag outside the allowed list disappears. */
  lemma ExampleDisallowedTag()
    ensures StripTag("a", map["a" := "href"], TagToken(false, "b", false, [])) == ""
  {
    assert Lower("b") == "b";
    SplitWithoutSeparator("a", '|');
  }

}
