/** Where a user is sent after a successful Concordium login. The frontend
    and administrator rules differ; `Uri::isInternal` and the menu item's
    language are supplied by the caller. */
module ReturnUrl {
  import opened Wrappers
  import opened Decimal
  import opened Php

  const ProfileUrl: string := "index.php?option=com_users&view=profile"
  const AdminHome: string := "index.php"
  const ItemPrefix: string := "index.php?Itemid="
  const ComponentTmpl: string := "tmpl=component"

  /** `sub` occurs in `s` starting at index `i`. */
  predicate OccursAt(s: string, sub: string, i: int) {
    0 <= i && i + |sub| <= |s| && s[i..i + |sub|] == sub
  }

  /** When `sub` does not start `s`, it occurs in `s` exactly when it occurs
      in `s` without its first character. */
  lemma OccursLater(s: string, sub: string)
    requires |sub| <= |s| && s[..|sub|] != sub
    ensures (exists i :: OccursAt(s, sub, i)) <==> (exists i :: OccursAt(s[1..], sub, i))
  {
    if exists i :: OccursAt(s[1..], sub, i) {
      var i :| OccursAt(s[1..], sub, i);
      assert s[i + 1..i + 1 + |sub|] == s[1..][i..i + |sub|];
      assert OccursAt(s, sub, i + 1);
    }
    if exists i :: OccursAt(s, sub, i) {
      var i :| OccursAt(s, sub, i);
      assert i != 0;
      assert s[1..][i - 1..i - 1 + |sub|] == s[i..i + |sub|];
      assert OccursAt(s[1..], sub, i - 1);
    }
  }

  /** `strpos($s, $sub) !== false`: `sub` occurs somewhere in `s`. */
  function Contains(s: string, sub: string): (r: bool)
    ensures r <==> exists i :: OccursAt(s, sub, i)
    decreases |s|
  {
    if |sub| > |s| then false
    else if s[..|sub|] == sub then
      assert OccursAt(s, sub, 0);
      true
    else
      OccursLater(s, sub);
      Contains(s[1..], sub)
  }

  /** `&lang=<language>` when multilanguage is on and the menu item's
      language is not `*`; a missing result appends an empty language. */
  function LanguageSuffix(multilanguage: bool, language: Option<string>): (r: string)
    ensures r == "" <==> !multilanguage || language == Some("*")
    ensures r != "" ==> r == "&lang=" + (if language.Some? then language.value else "")
  {
    if !multilanguage then ""
    else match language
      case Some(l) => if l == "*" then "" else "&lang=" + l
      case None => "&lang="
  }

  /** The URL for menu item `id`. */
  function ItemUrl(id: nat, multilanguage: bool, menuLanguage: nat -> Option<string>): (r: string)
    ensures !StringIsEmpty(r)
  {
    ItemPrefix + NatToString(id) + LanguageSuffix(multilanguage, menuLanguage(id))
  }

  /** The frontend rule, step by step as the plugin reassigns `$return`: a
      numeric return names a menu item, an external URL is dropped, and an
      empty result falls back to the user's profile page. */
  function FrontendReturn(ret: string, isInternal: string -> bool, multilanguage: bool,
                          menuLanguage: nat -> Option<string>): (r: string)
    // never empty, and never an external address the client sent
    ensures r != ""
    ensures r == ProfileUrl || ItemPrefix <= r || (r == ret && isInternal(ret))
  {
    var r :=
      if IsDigits(ret) then
        ItemUrlNamesItem(IntCast(ret), multilanguage, menuLanguage);
        ItemUrl(IntCast(ret), multilanguage, menuLanguage)
      else if !isInternal(ret) then ""
      else ret;
    if StringIsEmpty(r) then ProfileUrl else r
  }

  /** The administrator rule: anything external, or anything asking for the
      component-only template, goes to the control panel. */
  function AdminReturn(ret: string, isInternal: string -> bool): (r: string)
    ensures r == ret || r == AdminHome
    ensures r != AdminHome ==> isInternal(ret) && forall i :: !OccursAt(ret, ComponentTmpl, i)
    ensures isInternal(ret) && !Contains(ret, ComponentTmpl) ==> r == ret
  {
    if !isInternal(ret) || Contains(ret, ComponentTmpl) then AdminHome else ret
  }

  /** The menu-item URL starts with `index.php?Itemid=` followed by the
      item's digits. */
  lemma ItemUrlNamesItem(id: nat, multilanguage: bool, menuLanguage: nat -> Option<string>)
    ensures var r := ItemUrl(id, multilanguage, menuLanguage);
      && |r| > |ItemPrefix|
      && ItemPrefix <= r
      && r[|ItemPrefix|..|ItemPrefix| + |NatToString(id)|] == NatToString(id)
  {
    var digits := NatToString(id);
    var suffix := LanguageSuffix(multilanguage, menuLanguage(id));
    var r := ItemPrefix + digits + suffix;
    assert r[..|ItemPrefix|] == ItemPrefix;
    assert r[|ItemPrefix|..|ItemPrefix| + |digits|] == digits;
  }

  /** A numeric return becomes the menu-item URL whose `Itemid` reads back as
      the number given (below PHP_INT_MAX), e.g. "007" gives `Itemid=7`. */
  lemma FrontendNumericReturn(ret: string, isInternal: string -> bool, multilanguage: bool,
                              menuLanguage: nat -> Option<string>)
    requires IsDigits(ret)
    ensures var r := FrontendReturn(ret, isInternal, multilanguage, menuLanguage);
      var id := IntCast(ret);
      && r == ItemUrl(id, multilanguage, menuLanguage)
      && ItemPrefix <= r
      && IsDigits(r[|ItemPrefix|..|ItemPrefix| + |NatToString(id)|])
      && ParseDigits(r[|ItemPrefix|..|ItemPrefix| + |NatToString(id)|]) == id
      && (ParseDigits(ret) <= PhpIntMax ==> id == ParseDigits(ret))
  {
    ItemUrlNamesItem(IntCast(ret), multilanguage, menuLanguage);
  }

  /** A non-numeric return is kept only when it is internal and not empty;
      otherwise the profile page is used. */
  lemma FrontendTextReturn(ret: string, isInternal: string -> bool, multilanguage: bool,
                           menuLanguage: nat -> Option<string>)
    requires !IsDigits(ret)
    ensures FrontendReturn(ret, isInternal, multilanguage, menuLanguage)
         == if isInternal(ret) && ret != "" then ret else ProfileUrl
  {
  }
}
