/** The helpers behind the in-app tips ("Heidi tips"): the storage key and
    analytics event names of a tip collection, the metadata logged with a tip,
    the dismissal cookie that hides a collection, and the choice of a tip to
    show. The browser's cookie store is modelled as a list of name/value
    pairs. */
module HeidiTips {
  import opened Common

  const StoreKey := "heidi_ignored_tips"
  const EventNamespaceKey := "heidi_tips"
  /** Thirty days, in milliseconds. */
  const CookieExpiryTime: int := 1000 * 60 * 60 * 24 * 30

  /** The tip collections the app knows. */
  predicate IsCollectionKey(collection: string) {
    collection in {"projectCreation", "organizationPage", "projectSettings"}
  }

  datatype Link = Link(url: string, caption: string, params: Option<map<string, string>>)

  /** A tip; `content` and `description` are `None` when absent. */
  datatype Tip = Tip(title: string, content: Option<string>, description: Option<string>, link: Link)

  // ---------------------------------------------------------------------------
  // Names

  /** `getKey`: the cookie name of a collection's dismissal. */
  function Key(collection: string): (key: string)
    ensures key == StoreKey + ":" + collection
    ensures StartsWith(key, StoreKey + ":") && key[|StoreKey| + 1..] == collection
  {
    StoreKey + ":" + collection
  }

  /** `getTipCollectionEvent` */
  function TipCollectionEvent(collection: string, event: string): (name: string)
    ensures name == Join([EventNamespaceKey, collection, event], ".")
  {
    JoinThree(EventNamespaceKey, collection, event);
    EventNamespaceKey + "." + collection + "." + event
  }

  /** `tip.link.params?.[name]` when it is truthy (a non-empty string). */
  function Param(tip: Tip, name: string): Option<string> {
    if tip.link.params.Some? && name in tip.link.params.value && tip.link.params.value[name] != ""
    then Some(tip.link.params.value[name])
    else None
  }

  /** The truthy ones of the tip's experiment and treatment, in that order. */
  function EventSegments(tip: Tip): seq<string> {
    (if Param(tip, "experiment").Some? then [Param(tip, "experiment").value] else [])
    + (if Param(tip, "treatment").Some? then [Param(tip, "treatment").value] else [])
  }

  lemma {:induction false} JoinThree(a: string, b: string, c: string)
    ensures Join([a, b, c], ".") == a + "." + b + "." + c
  {
    var s := [a, b, c];
    assert s[1..] == [b, c] && s[1..][1..] == [c];
    assert Join([c], ".") == c;
    assert Join([b, c], ".") == b + "." + c;
  }

  lemma {:induction false} JoinFour(a: string, b: string, c: string, d: string)
    ensures Join([a, b, c, d], ".") == a + "." + b + "." + c + "." + d
  {
    var s := [a, b, c, d];
    assert s[1..] == [b, c, d];
    JoinThree(b, c, d);
  }

  lemma {:induction false} JoinFive(a: string, b: string, c: string, d: string, e: string)
    ensures Join([a, b, c, d, e], ".") == a + "." + b + "." + c + "." + d + "." + e
  {
    var s := [a, b, c, d, e];
    assert s[1..] == [b, c, d, e];
    JoinFour(b, c, d, e);
  }

  /** `getTipEvent`: the namespace, the collection, the tip's truthy
      experiment and treatment, and the event, joined by dots. */
  function TipEvent(collection: string, tip: Tip, event: string): (name: string)
    ensures name == Join([EventNamespaceKey, collection] + EventSegments(tip) + [event], ".")
  {
    var experiment := Param(tip, "experiment");
    var treatment := Param(tip, "treatment");
    if experiment.Some? && treatment.Some? then
      assert [EventNamespaceKey, collection] + EventSegments(tip) + [event]
          == [EventNamespaceKey, collection, experiment.value, treatment.value, event];
      JoinFive(EventNamespaceKey, collection, experiment.value, treatment.value, event);
      EventNamespaceKey + "." + collection + "." + experiment.value + "." + treatment.value + "." + event
    else if experiment.Some? then
      assert [EventNamespaceKey, collection] + EventSegments(tip) + [event]
          == [EventNamespaceKey, collection, experiment.value, event];
      JoinFour(EventNamespaceKey, collection, experiment.value, event);
      EventNamespaceKey + "." + collection + "." + experiment.value + "." + event
    else if treatment.Some? then
      assert [EventNamespaceKey, collection] + EventSegments(tip) + [event]
          == [EventNamespaceKey, collection, treatment.value, event];
      JoinFour(EventNamespaceKey, collection, treatment.value, event);
      EventNamespaceKey + "." + collection + "." + treatment.value + "." + event
    else
      assert [EventNamespaceKey, collection] + EventSegments(tip) + [event] == [EventNamespaceKey, collection, event];
      TipCollectionEvent(collection, event)
  }

  // ---------------------------------------------------------------------------
  // Metadata

  /** The keys `getTipMetadata` always sets. */
  const MetadataKeys: set<string> := {"content", "title", "href", "label"}

  /** `getTipMetadata`: the link's params without experiment and treatment,
      then the tip's content (its description, else its content, else ""),
      title, url and label, which win over params of the same name. */
  function TipMetadata(tip: Tip): (metadata: map<string, string>)
    ensures var params := if tip.link.params.Some? then tip.link.params.value else map[];
      metadata.Keys == (params.Keys - {"experiment", "treatment"}) + MetadataKeys
      && (forall k :: k in params && k !in {"experiment", "treatment"} && k !in MetadataKeys ==> metadata[k] == params[k])
    ensures metadata["content"] == (if tip.description.Some? then tip.description.value
                                    else if tip.content.Some? then tip.content.value else "")
    ensures metadata["title"] == tip.title && metadata["href"] == tip.link.url && metadata["label"] == tip.link.caption
  {
    var params := if tip.link.params.Some? then tip.link.params.value else map[];
    var rest := map k | k in params && k != "experiment" && k != "treatment" :: params[k];
    var content := if tip.description.Some? then tip.description.value
                   else if tip.content.Some? then tip.content.value else "";
    rest["content" := content]["title" := tip.title]["href" := tip.link.url]["label" := tip.link.caption]
  }

  // ---------------------------------------------------------------------------
  // Reading the dismissal cookie

  /** One `name=value` item of `document.cookie`, trimmed and split at `=`;
      the value is `None` when the item has no `=`. */
  function CookieEntry(item: string): (string, Option<string>) {
    var parts := Split(Trim(item), '=');
    (parts[0], if |parts| > 1 then Some(parts[1]) else None)
  }

  function CookieEntries(cookie: string): seq<(string, Option<string>)> {
    var items := Split(cookie, ';');
    seq(|items|, i requires 0 <= i < |items| => CookieEntry(items[i]))
  }

  /** `Object.fromEntries`: a later entry overwrites an earlier one of the same name. */
  function FromEntries(entries: seq<(string, Option<string>)>): map<string, Option<string>>
  {
    if |entries| == 0 then map[]
    else FromEntries(entries[..|entries| - 1])[entries[|entries| - 1].0 := entries[|entries| - 1].1]
  }

  /** An entry is the last of its name. */
  predicate LastOfName(entries: seq<(string, Option<string>)>, i: int) {
    0 <= i < |entries| && forall j :: i < j < |entries| ==> entries[j].0 != entries[i].0
  }

  /** A name is present when some entry has it, and maps to the value of the
      last entry with it. */
  lemma {:induction false} FromEntriesLastWins(entries: seq<(string, Option<string>)>, name: string)
    ensures name in FromEntries(entries) <==> exists i :: 0 <= i < |entries| && entries[i].0 == name
    ensures forall i :: LastOfName(entries, i) && entries[i].0 == name ==> FromEntries(entries)[name] == entries[i].1
  {
    FromEntriesHas(entries, name);
    forall i | LastOfName(entries, i) && entries[i].0 == name
      ensures FromEntries(entries)[name] == entries[i].1
    {
      FromEntriesLast(entries, i);
    }
  }

  lemma {:induction false} FromEntriesHas(entries: seq<(string, Option<string>)>, name: string)
    ensures name in FromEntries(entries) <==> exists i :: 0 <= i < |entries| && entries[i].0 == name
  {
    if |entries| > 0 {
      var init := entries[..|entries| - 1];
      FromEntriesHas(init, name);
      if exists i :: 0 <= i < |init| && init[i].0 == name {
        var i :| 0 <= i < |init| && init[i].0 == name;
        assert entries[i].0 == name;
      }
      if exists i :: 0 <= i < |entries| && entries[i].0 == name {
        var i :| 0 <= i < |entries| && entries[i].0 == name;
        if i < |entries| - 1 {
          assert init[i].0 == name;
        }
      }
    }
  }

  lemma {:induction false} FromEntriesLast(entries: seq<(string, Option<string>)>, i: int)
    requires LastOfName(entries, i)
    ensures entries[i].0 in FromEntries(entries) && FromEntries(entries)[entries[i].0] == entries[i].1
  {
    var init := entries[..|entries| - 1];
    if i < |entries| - 1 {
      assert LastOfName(init, i) by {
        forall j | i < j < |init| ensures init[j].0 != init[i].0 {
          assert init[j] == entries[j];
        }
      }
      FromEntriesLast(init, i);
      assert init[i] == entries[i];
    }
  }

  /** `isTipDismissed`, for the current `document.cookie`. */
  predicate IsTipDismissed(cookie: string, collection: string) {
    var cookies := FromEntries(CookieEntries(cookie));
    Key(collection) in cookies && cookies[Key(collection)] == Some("true")
  }

  /** A collection is dismissed exactly when the last cookie item named by
      its key has the value "true". */
  lemma {:induction false} DismissedIffLastItemTrue(cookie: string, collection: string)
    ensures IsTipDismissed(cookie, collection) <==>
      exists i :: LastOfName(CookieEntries(cookie), i) && CookieEntries(cookie)[i] == (Key(collection), Some("true"))
  {
    var entries := CookieEntries(cookie);
    var key := Key(collection);
    FromEntriesLastWins(entries, key);
    if key in FromEntries(entries) {
      var i :| 0 <= i < |entries| && entries[i].0 == key;
      var last := LastIndexOf(entries, key, i);
      assert LastOfName(entries, last);
    }
  }

  /** The last entry with the name of entry `i`. */
  function LastIndexOf(entries: seq<(string, Option<string>)>, name: string, i: nat): (last: nat)
    requires i < |entries| && entries[i].0 == name
    ensures i <= last < |entries| && entries[last].0 == name
    ensures forall j :: last < j < |entries| ==> entries[j].0 != name
    decreases |entries| - i
  {
    if exists j :: i < j < |entries| && entries[j].0 == name then
      var j :| i < j < |entries| && entries[j].0 == name;
      LastIndexOf(entries, name, j)
    else i
  }

  // ---------------------------------------------------------------------------
  // The cookie store and dismissing a collection

  /** A cookie name or value this model can store: no separators, no white space. */
  predicate PlainToken(s: string) {
    |s| > 0 && forall i :: 0 <= i < |s| ==> s[i] != ';' && s[i] != '=' && !IsJsWhiteSpace(s[i])
  }

  /** The `name=value` pair of an assigned cookie string: its text up to the
      first `;`, split at the first `=`. */
  function AssignedPair(cookieString: string): (string, string) {
    var pair := Split(cookieString, ';')[0];
    var parts := Split(pair, '=');
    (parts[0], Join(parts[1..], "="))
  }

  /** The dismissal cookie string: `<key>=true; expires=<date>; path=/`. */
  function DismissalCookie(collection: string, expiry: string): string {
    Join([Key(collection) + "=true", "expires=" + expiry, "path=/"], "; ")
  }

  function Render(pairs: seq<(string, string)>): seq<string> {
    seq(|pairs|, i requires 0 <= i < |pairs| => pairs[i].0 + "=" + pairs[i].1)
  }

  /** The pieces `"; "`-joined text splits into at `;`: each but the first
      keeps the space. */
  function Spaced(items: seq<string>): seq<string> {
    seq(|items|, i requires 0 <= i < |items| => if i == 0 then items[i] else " " + items[i])
  }

  lemma {:induction false} JoinSpaced(items: seq<string>)
    ensures Join(items, "; ") == Join(Spaced(items), ";")
  {
    if |items| > 1 {
      JoinSpaced(items[1..]);
      var tail := Spaced(items[1..]);
      var all := Spaced(items);
      assert all[1..] == [" " + tail[0]] + tail[1..];
      JoinSpaceFirst(tail);
      assert Join(items, "; ") == items[0] + "; " + Join(items[1..], "; ");
      assert Join(all, ";") == all[0] + ";" + Join(all[1..], ";");
    } else if |items| == 1 {
      assert Spaced(items) == items;
    }
  }

  lemma {:induction false} JoinSpaceFirst(items: seq<string>)
    requires |items| > 0
    ensures Join([" " + items[0]] + items[1..], ";") == " " + Join(items, ";")
  {
    var s := [" " + items[0]] + items[1..];
    if |items| > 1 {
      assert s[1..] == items[1..];
    }
  }

  /** The entries `isTipDismissed` reads off a non-empty rendered store are
      the store's pairs. (An empty store reads as one entry with an empty name.) */
  lemma {:induction false} StoreEntries(pairs: seq<(string, string)>)
    requires |pairs| > 0
    requires forall i :: 0 <= i < |pairs| ==> PlainToken(pairs[i].0) && PlainToken(pairs[i].1)
    ensures CookieEntries(Join(Render(pairs), "; ")) == seq(|pairs|, i requires 0 <= i < |pairs| => (pairs[i].0, Some(pairs[i].1)))
  {
    var rendered := Render(pairs);
    JoinSpaced(rendered);
    var items := Spaced(rendered);
    forall i | 0 <= i < |items| ensures ';' !in items[i] {
      PairHasNo(pairs[i].0, pairs[i].1, ';');
    }
    SplitJoin(items, ';');
    forall i | 0 <= i < |pairs| ensures CookieEntry(items[i]) == (pairs[i].0, Some(pairs[i].1)) {
      ItemEntry(pairs, i);
    }
  }

  /** Each item of a rendered store reads back as its pair. */
  lemma {:induction false} ItemEntry(pairs: seq<(string, string)>, i: nat)
    requires i < |pairs| && PlainToken(pairs[i].0) && PlainToken(pairs[i].1)
    ensures CookieEntry(Spaced(Render(pairs))[i]) == (pairs[i].0, Some(pairs[i].1))
  {
    var pair := pairs[i].0 + "=" + pairs[i].1;
    assert Render(pairs)[i] == pair;
    TrimPlainPair(pairs[i].0, pairs[i].1);
    assert Trim(Spaced(Render(pairs))[i]) == pair;
    PairSplits(pairs[i].0, pairs[i].1);
  }

  lemma {:induction false} PairHasNo(name: string, value: string, c: char)
    requires PlainToken(name) && PlainToken(value) && (c == ';' || c == '=')
    ensures c != '=' ==> c !in name + "=" + value
    ensures c !in " " + name + "=" + value || c == '='
  {
  }

  lemma {:induction false} TrimPlainPair(name: string, value: string)
    requires PlainToken(name) && PlainToken(value)
    ensures Trim(name + "=" + value) == name + "=" + value
    ensures Trim(" " + (name + "=" + value)) == name + "=" + value
  {
    var pair := name + "=" + value;
    assert pair[0] == name[0] && pair[|pair| - 1] == value[|value| - 1];
    TrimUnpadded(pair);
    assert (" " + pair)[1..] == pair;
    assert TrimStart(" " + pair) == TrimStart(pair);
  }

  lemma {:induction false} PairSplits(name: string, value: string)
    requires PlainToken(name) && PlainToken(value)
    ensures Split(name + "=" + value, '=') == [name, value]
  {
    SplitJoin([name, value], '=');
    assert [name, value][1..] == [value];
  }

  /** A cookie store this model reads back faithfully: every name and value
      is plain and no two cookies share a name. */
  ghost predicate WellFormedStore(pairs: seq<(string, string)>) {
    (forall i :: 0 <= i < |pairs| ==> PlainToken(pairs[i].0) && PlainToken(pairs[i].1))
    && forall i, j :: 0 <= i < j < |pairs| ==> pairs[i].0 != pairs[j].0
  }

  /** The position of the first cookie with that name, or -1. */
  function FirstNamed(pairs: seq<(string, string)>, name: string): (i: int)
    ensures -1 <= i < |pairs|
    ensures i >= 0 ==> pairs[i].0 == name
    ensures forall j :: 0 <= j < |pairs| && (i == -1 || j < i) ==> pairs[j].0 != name
  {
    if |pairs| == 0 then -1
    else if pairs[0].0 == name then 0
    else
      var k := FirstNamed(pairs[1..], name);
      if k == -1 then -1 else k + 1
  }

  /** The store after a cookie is set: it replaces the cookie of the same
      name, or is added last. */
  function StoreCookie(pairs: seq<(string, string)>, name: string, value: string): seq<(string, string)>
  {
    var i := FirstNamed(pairs, name);
    if i == -1 then pairs + [(name, value)] else pairs[i := (name, value)]
  }

  /** Where a set cookie lands: at the old cookie of that name, else last. */
  function SetPosition(pairs: seq<(string, string)>, name: string): nat {
    if FirstNamed(pairs, name) == -1 then |pairs| else FirstNamed(pairs, name)
  }

  /** Setting a plain cookie keeps the store well formed; the set pair is the
      only one with its name. */
  lemma {:induction false} StoreCookieWellFormed(pairs: seq<(string, string)>, name: string, value: string)
    requires WellFormedStore(pairs) && PlainToken(name) && PlainToken(value)
    ensures var after := StoreCookie(pairs, name, value);
      var k := SetPosition(pairs, name);
      WellFormedStore(after) && k < |after| && after[k] == (name, value)
      && forall j :: 0 <= j < |after| && j != k ==> after[j].0 != name
  {
    var after := StoreCookie(pairs, name, value);
    var k := SetPosition(pairs, name);
    assert forall j :: 0 <= j < |after| && j != k ==> after[j] == pairs[j] && after[j].0 != name;
  }

  /** Reading the store back after a plain cookie is set gives the value just
      set for that name. */
  lemma {:induction false} StoredCookieReadsBack(pairs: seq<(string, string)>, name: string, value: string)
    requires WellFormedStore(pairs) && PlainToken(name) && PlainToken(value)
    ensures var after := StoreCookie(pairs, name, value);
      var cookies := FromEntries(CookieEntries(Join(Render(after), "; ")));
      WellFormedStore(after) && name in cookies && cookies[name] == Some(value)
  {
    var after := StoreCookie(pairs, name, value);
    var k := SetPosition(pairs, name);
    StoreCookieWellFormed(pairs, name, value);
    StoreEntries(after);
    var entries := CookieEntries(Join(Render(after), "; "));
    assert entries[k] == (name, Some(value));
    assert LastOfName(entries, k);
    FromEntriesLastWins(entries, name);
  }

  /** The browser's cookie store as `document` exposes it. */
  class Document {
    /** The stored cookies, oldest first. */
    var pairs: seq<(string, string)>
    /** Events logged through `__lsa`: the name and the expiry time. */
    var logged: seq<(string, int)>

    /** `document.cookie` as read: the pairs joined by "; ". */
    function Cookie(): string
      reads this
    {
      Join(Render(pairs), "; ")
    }

    constructor()
      ensures pairs == [] && logged == []
    {
      pairs := [];
      logged := [];
    }

    /** Assigning `document.cookie`: the assigned pair replaces the stored
        cookie of the same name, or is added last. Expiry and path are not kept. */
    method AssignCookie(cookieString: string)
      modifies this
      ensures pairs == StoreCookie(old(pairs), AssignedPair(cookieString).0, AssignedPair(cookieString).1)
      ensures logged == old(logged)
    {
      var (name, value) := AssignedPair(cookieString);
      var i := 0;
      while i < |pairs|
        invariant 0 <= i <= |pairs| && pairs == old(pairs)
        invariant forall j :: 0 <= j < i ==> pairs[j].0 != name
      {
        if pairs[i].0 == name {
          pairs := pairs[i := (name, value)];
          return;
        }
        i := i + 1;
      }
      pairs := pairs + [(name, value)];
    }

    /** `dismissTip`: sets the dismissal cookie and logs the dismissal with
        its expiry time. `now` is the current time and `expiry` its UTC text
        thirty days on. Afterwards the collection reads as dismissed. */
    method DismissTip(collection: string, now: int, expiry: string)
      requires IsCollectionKey(collection) && ';' !in expiry
      requires WellFormedStore(pairs)
      modifies this
      ensures pairs == StoreCookie(old(pairs), Key(collection), "true")
      ensures WellFormedStore(pairs) && IsTipDismissed(Cookie(), collection)
      ensures logged == old(logged) + [(TipCollectionEvent(collection, "dismiss"), now + CookieExpiryTime)]
    {
      var cookieString := DismissalCookie(collection, expiry);
      DismissalPair(collection, expiry);
      StoredCookieReadsBack(pairs, Key(collection), "true");
      AssignCookie(cookieString);
      logged := logged + [(TipCollectionEvent(collection, "dismiss"), now + CookieExpiryTime)];
    }
  }

  predicate WordChar(c: char) {
    'a' <= c <= 'z' || 'A' <= c <= 'Z' || c == '_' || c == ':'
  }

  /** The key of a known collection is a plain cookie name. */
  lemma {:induction false} KeyIsPlain(collection: string)
    requires IsCollectionKey(collection)
    ensures PlainToken(Key(collection))
  {
    var key := Key(collection);
    assert forall i :: 0 <= i < |key| ==> WordChar(key[i]);
  }

  /** The dismissal cookie assigns the pair `<key>=true`. */
  lemma {:induction false} DismissalPair(collection: string, expiry: string)
    requires IsCollectionKey(collection) && ';' !in expiry
    ensures AssignedPair(DismissalCookie(collection, expiry)) == (Key(collection), "true")
    ensures PlainToken(Key(collection)) && PlainToken("true")
  {
    var key := Key(collection);
    KeyIsPlain(collection);
    var items := [key + "=true", "expires=" + expiry, "path=/"];
    JoinSpaced(items);
    assert ';' !in items[0] by {
      PairHasNo(key, "true", ';');
    }
    assert ';' !in " " + items[1] && ';' !in " " + items[2];
    SplitJoin(Spaced(items), ';');
    assert Split(DismissalCookie(collection, expiry), ';')[0] == key + "=true";
    PairSplits(key, "true");
    assert key + "=" + "true" == key + "=true";
    var parts := Split(key + "=true", '=');
    assert parts[1..] == ["true"];
    assert Join(parts[1..], "=") == "true";
  }

  // ---------------------------------------------------------------------------
  // Picking a tip

  /** `getRandomTip`: nothing when the collection is missing or dismissed;
      otherwise the tip at `pick`, the position `Math.random` chose; an
      empty collection yields `undefined`, also `None` here. */
  function RandomTip(tips: map<string, seq<Tip>>, collection: string, cookie: string, pick: nat): (tip: Option<Tip>)
    requires collection in tips ==> pick < |tips[collection]| || |tips[collection]| == 0
    ensures collection !in tips || IsTipDismissed(cookie, collection) ==> tip.None?
    ensures tip.Some? <==> collection in tips && !IsTipDismissed(cookie, collection) && |tips[collection]| > 0
    ensures tip.Some? ==> tip.value == tips[collection][pick]
  {
    if collection !in tips || IsTipDismissed(cookie, collection) then None
    else if pick < |tips[collection]| then Some(tips[collection][pick])
    else None
  }
}
