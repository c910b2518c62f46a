/** Paged broker replies and the de-duplication that carries the last key across pages. */
module Paging {
  import opened Results
  import opened Text

  /** One queue or endpoint of a reply; `payload` is whatever the caller reads beside its name. */
  datatype Item<P> = Item(vpn: string, name: string, payload: P)

  /** What the broker answers to a request and to the follow-up requests its replies ask for. */
  datatype Conversation<P> =
    | HttpError(error: string)
    | DecodeError(error: string)
    | BadResult(error: string)
    | Page(items: seq<Item<P>>, next: Option<Conversation<P>>)

  const SEPARATOR := "___"

  function KeyOf(vpn: string, name: string): string {
    vpn + SEPARATOR + name
  }

  function Key<P>(x: Item<P>): string {
    KeyOf(x.vpn, x.name)
  }

  /** The items of all pages before the first failure. */
  function Items<P>(conv: Conversation<P>): seq<Item<P>> {
    if conv.Page? then conv.items + (if conv.next.Some? then Items(conv.next.value) else []) else []
  }

  /** The reply that ends the conversation: the failure, or the page that asks for no more. */
  function End<P>(conv: Conversation<P>): Conversation<P> {
    if conv.Page? && conv.next.Some? then End(conv.next.value) else conv
  }

  /** A loop over the conversation has taken the items `seen` and has `rest` still to ask for. */
  ghost predicate Taken<P>(conv: Conversation<P>, seen: seq<Item<P>>, rest: Option<Conversation<P>>) {
    match rest
    case Some(c) => Items(conv) == seen + Items(c) && End(conv) == End(c)
    case None => Items(conv) == seen && End(conv).Page?
  }

  lemma TakePage<P>(conv: Conversation<P>, seen: seq<Item<P>>, page: Conversation<P>)
    requires Taken(conv, seen, Some(page))
    ensures page.Page? ==> Taken(conv, seen + page.items, page.next)
    ensures !page.Page? ==> Items(conv) == seen && End(conv) == page
  {
    if page.Page? {
      var later := if page.next.Some? then Items(page.next.value) else [];
      assert seen + (page.items + later) == (seen + page.items) + later;
    }
  }

  /** The simple form: an item stays unless the item right before it has the same key. */
  function Kept<P>(xs: seq<Item<P>>): seq<Item<P>> {
    if xs == [] then []
    else
      var n := |xs| - 1;
      Kept(xs[..n]) + (if n > 0 && Key(xs[n - 1]) == Key(xs[n]) then [] else [xs[n]])
  }

  /** The value the loops carry from item to item; no key is empty. */
  function LastKey<P>(xs: seq<Item<P>>, start: string): string {
    if xs == [] then start else Key(xs[|xs| - 1])
  }

  /** What is left of `xs` after an item with key `last`. */
  function KeptAfter<P>(last: string, xs: seq<Item<P>>): seq<Item<P>>
    decreases |xs|
  {
    if xs == [] then []
    else if Key(xs[0]) == last then KeptAfter(last, xs[1..])
    else [xs[0]] + KeptAfter(Key(xs[0]), xs[1..])
  }

  lemma {:induction false} KeptAfterConcat<P>(last: string, xs: seq<Item<P>>, ys: seq<Item<P>>)
    ensures KeptAfter(last, xs + ys) == KeptAfter(last, xs) + KeptAfter(LastKey(xs, last), ys)
    decreases |xs|
  {
    if xs == [] {
      assert xs + ys == ys;
    } else {
      var head, rest := xs[0], xs[1..];
      assert (xs + ys)[0] == head && (xs + ys)[1..] == rest + ys;
      KeptAfterConcat(Key(head), rest, ys);
      LastKeyOfRest(xs, last);
      if Key(head) != last {
        var kept, later := KeptAfter(Key(head), rest), KeptAfter(LastKey(rest, Key(head)), ys);
        assert [head] + (kept + later) == ([head] + kept) + later;
      }
    }
  }

  lemma LastKeyOfRest<P>(xs: seq<Item<P>>, last: string)
    requires xs != []
    ensures LastKey(xs, last) == LastKey(xs[1..], Key(xs[0]))
  {
  }

  lemma KeptAfterSnoc<P>(last: string, xs: seq<Item<P>>, x: Item<P>)
    ensures KeptAfter(last, xs + [x]) == KeptAfter(last, xs) + (if LastKey(xs, last) == Key(x) then [] else [x])
  {
    KeptAfterConcat(last, xs, [x]);
  }

  lemma {:induction false} KeptIsKeptAfter<P>(xs: seq<Item<P>>)
    ensures Kept(xs) == KeptAfter("", xs)
  {
    if xs != [] {
      var n := |xs| - 1;
      KeptIsKeptAfter(xs[..n]);
      assert xs[..n] + [xs[n]] == xs;
      KeptAfterConcat("", xs[..n], [xs[n]]);
      assert Key(xs[n]) != "";
    }
  }

  /** `conv` delivers `xs` in pages after an item with key `last`: each page is the next stretch of `xs`, possibly with
      the item that ended the page before repeated at its start. */
  ghost predicate Pages<P>(conv: Conversation<P>, last: string, xs: seq<Item<P>>)
    decreases conv, 1
  {
    conv.Page? &&
    (|| Stretch(conv, conv.items, last, xs)
     || (conv.items != [] && Key(conv.items[0]) == last && Stretch(conv, conv.items[1..], last, xs)))
  }

  ghost predicate Stretch<P>(conv: Conversation<P>, items: seq<Item<P>>, last: string, xs: seq<Item<P>>)
    requires conv.Page?
    decreases conv, 0
  {
    && items <= xs
    && (conv.next.None? ==> items == xs)
    && (conv.next.Some? ==> Pages(conv.next.value, LastKey(items, last), xs[|items|..]))
  }

  /** Paging is invisible: however a list is cut into pages, with or without repeated boundary items, what is kept is
      what the uncut list keeps. */
  lemma PagingIsInvisible<P>(conv: Conversation<P>, xs: seq<Item<P>>)
    requires Pages(conv, "", xs)
    ensures Kept(Items(conv)) == Kept(xs)
  {
    PagesKeep(conv, "", xs);
    KeptIsKeptAfter(Items(conv));
    KeptIsKeptAfter(xs);
  }

  lemma {:induction false} PagesKeep<P>(conv: Conversation<P>, last: string, xs: seq<Item<P>>)
    requires Pages(conv, last, xs)
    ensures KeptAfter(last, Items(conv)) == KeptAfter(last, xs)
    decreases conv, 1
  {
    if Stretch(conv, conv.items, last, xs) {
      StretchKeeps(conv, conv.items, last, xs);
    } else {
      StretchKeeps(conv, conv.items[1..], last, xs);
      assert Items(conv)[1..] == conv.items[1..] + Tail(conv);
    }
  }

  function Tail<P>(conv: Conversation<P>): seq<Item<P>>
    requires conv.Page?
  {
    if conv.next.Some? then Items(conv.next.value) else []
  }

  lemma {:induction false} StretchKeeps<P>(conv: Conversation<P>, items: seq<Item<P>>, last: string, xs: seq<Item<P>>)
    requires conv.Page? && Stretch(conv, items, last, xs)
    ensures KeptAfter(last, items + Tail(conv)) == KeptAfter(last, xs)
    decreases conv, 0
  {
    assert items + xs[|items|..] == xs;
    KeptAfterConcat(last, items, Tail(conv));
    KeptAfterConcat(last, items, xs[|items|..]);
    if conv.next.Some? {
      PagesKeep(conv.next.value, LastKey(items, last), xs[|items|..]);
    }
  }

  /** Pages in order, then a last reply. */
  function Script<P>(pages: seq<seq<Item<P>>>, end: Conversation<P>): Conversation<P> {
    if pages == [] then end else Page(pages[0], Some(Script(pages[1..], end)))
  }

  function Flatten<T>(pages: seq<seq<T>>): seq<T> {
    if pages == [] then [] else pages[0] + Flatten(pages[1..])
  }

  /** A failure at page k leaves exactly the items of the pages before k. */
  lemma {:induction false} FailureKeepsEarlierPages<P>(pages: seq<seq<Item<P>>>, failure: Conversation<P>)
    requires !failure.Page?
    ensures Items(Script(pages, failure)) == Flatten(pages) && End(Script(pages, failure)) == failure
  {
    if pages != [] {
      FailureKeepsEarlierPages(pages[1..], failure);
    }
  }

  /** Items with equal keys stand together. */
  ghost predicate Contiguous<P>(xs: seq<Item<P>>) {
    forall i, j, k :: 0 <= i < j < k < |xs| && Key(xs[i]) == Key(xs[k]) ==> Key(xs[j]) == Key(xs[i])
  }

  ghost predicate HasKey<P>(xs: seq<Item<P>>, k: string) {
    exists i :: 0 <= i < |xs| && Key(xs[i]) == k
  }

  ghost predicate DistinctKeys<P>(xs: seq<Item<P>>) {
    forall i, j :: 0 <= i < j < |xs| ==> Key(xs[i]) != Key(xs[j])
  }

  /** Nothing is lost: the kept items have the keys of all items. */
  lemma {:induction false} KeptHasAllKeys<P>(xs: seq<Item<P>>, k: string)
    ensures HasKey(Kept(xs), k) <==> HasKey(xs, k)
  {
    if xs != [] {
      var n := |xs| - 1;
      var init, last := xs[..n], xs[n];
      KeptHasAllKeys(init, k);
      assert xs == init + [last];
      assert HasKey(xs, k) <==> HasKey(init, k) || Key(last) == k by {
        assert Key(last) == k ==> Key(xs[n]) == k;
        assert forall i :: 0 <= i < n ==> xs[i] == init[i];
      }
      if n > 0 && Key(xs[n - 1]) == Key(last) {
        assert Key(last) == Key(init[n - 1]);
        assert Kept(xs) == Kept(init);
      } else {
        var kept := Kept(init);
        assert (kept + [last])[|kept|] == last;
        assert forall i :: 0 <= i < |kept| ==> (kept + [last])[i] == kept[i];
      }
    }
  }

  /** In such a list an item that is not like its predecessor is like no earlier item. */
  lemma NewKey<P>(xs: seq<Item<P>>)
    requires Contiguous(xs) && xs != []
    requires |xs| > 1 ==> Key(xs[|xs| - 2]) != Key(xs[|xs| - 1])
    ensures !HasKey(xs[..|xs| - 1], Key(xs[|xs| - 1]))
  {
    var n := |xs| - 1;
    forall i | 0 <= i < n
      ensures Key(xs[..n][i]) != Key(xs[n])
    {
      assert xs[..n][i] == xs[i] && Key(xs[n - 1]) != Key(xs[n]);
    }
  }

  lemma DistinctKeysSnoc<P>(xs: seq<Item<P>>, x: Item<P>)
    requires DistinctKeys(xs) && !HasKey(xs, Key(x))
    ensures DistinctKeys(xs + [x])
  {
  }

  lemma ContiguousPrefix<P>(xs: seq<Item<P>>, n: nat)
    requires Contiguous(xs) && n <= |xs|
    ensures Contiguous(xs[..n])
  {
    assert forall i :: 0 <= i < n ==> xs[..n][i] == xs[i];
  }

  lemma {:induction false} ContiguousKeysDistinct<P>(xs: seq<Item<P>>)
    requires Contiguous(xs)
    ensures DistinctKeys(Kept(xs))
  {
    if xs != [] {
      var n := |xs| - 1;
      ContiguousPrefix(xs, n);
      ContiguousKeysDistinct(xs[..n]);
      if !(n > 0 && Key(xs[n - 1]) == Key(xs[n])) {
        NewKey(xs);
        KeptHasAllKeys(xs[..n], Key(xs[n]));
        DistinctKeysSnoc(Kept(xs[..n]), xs[n]);
      }
    }
  }

  /** When equal keys stand together, each key is kept exactly once. */
  lemma ContiguousKeysKeptOnce<P>(xs: seq<Item<P>>)
    requires Contiguous(xs)
    ensures DistinctKeys(Kept(xs))
    ensures forall k :: HasKey(Kept(xs), k) <==> HasKey(xs, k)
  {
    ContiguousKeysDistinct(xs);
    forall k
      ensures HasKey(Kept(xs), k) <==> HasKey(xs, k)
    {
      KeptHasAllKeys(xs, k);
    }
  }

  /* ---------- the key against the endpoint it stands for ---------- */

  predicate SameEndpoint<P>(x: Item<P>, y: Item<P>) {
    x.vpn == y.vpn && x.name == y.name
  }

  /** As `Kept`, but comparing VPN and name instead of their joined text. */
  function KeptByEndpoint<P>(xs: seq<Item<P>>): seq<Item<P>> {
    if xs == [] then []
    else
      var n := |xs| - 1;
      KeptByEndpoint(xs[..n]) + (if n > 0 && SameEndpoint(xs[n - 1], xs[n]) then [] else [xs[n]])
  }

  /** Different endpoints with the same joined text. */
  predicate Collide<P>(x: Item<P>, y: Item<P>) {
    Key(x) == Key(y) && !SameEndpoint(x, y)
  }

  ghost predicate NeighboursCollide<P>(xs: seq<Item<P>>) {
    exists i :: 0 < i < |xs| && Collide(xs[i - 1], xs[i])
  }

  lemma NeighboursSnoc<P>(xs: seq<Item<P>>, x: Item<P>)
    ensures NeighboursCollide(xs + [x]) <==> NeighboursCollide(xs) || (xs != [] && Collide(xs[|xs| - 1], x))
  {
    var all := xs + [x];
    assert forall i :: 0 <= i < |xs| ==> all[i] == xs[i];
    if i :| 0 < i < |xs| && Collide(xs[i - 1], xs[i]) {
      assert Collide(all[i - 1], all[i]);
    }
    if xs != [] && Collide(xs[|xs| - 1], x) {
      assert Collide(all[|xs| - 1], all[|xs|]);
    }
  }

  lemma {:induction false} KeptIsNoLonger<P>(xs: seq<Item<P>>)
    ensures |Kept(xs)| <= |KeptByEndpoint(xs)|
    ensures NeighboursCollide(xs) ==> |Kept(xs)| < |KeptByEndpoint(xs)|
    ensures !NeighboursCollide(xs) ==> Kept(xs) == KeptByEndpoint(xs)
  {
    if xs != [] {
      var init, last := xs[..|xs| - 1], xs[|xs| - 1];
      KeptIsNoLonger(init);
      assert xs == init + [last];
      NeighboursSnoc(init, last);
    }
  }

  /** No endpoint is mistaken for its predecessor exactly when no two neighbours collide. */
  lemma KeyDedupIsExactIff<P>(xs: seq<Item<P>>)
    ensures Kept(xs) == KeptByEndpoint(xs) <==> !NeighboursCollide(xs)
  {
    KeptIsNoLonger(xs);
  }

  /** Some endpoint of the one VPN has the key of some other endpoint of the other VPN. */
  ghost predicate VpnsCollide(v: string, w: string) {
    exists n, m :: KeyOf(v, n) == KeyOf(w, m) && !(v == w && n == m)
  }

  /** The shorter name with the separator, or with a part of it, begins the longer one or ends within it. */
  predicate Confusable(v: string, w: string) {
    v != w && (v + "___" <= w || (v <= w && w <= v + "___"))
  }

  /** Which VPN names collide, exactly: the longer one is the shorter one followed by a separator and anything, or by a
      part of a separator. */
  lemma VpnsCollideIff(v: string, w: string)
    requires |v| <= |w|
    ensures VpnsCollide(v, w) <==> Confusable(v, w)
  {
    if VpnsCollide(v, w) {
      var n, m :| KeyOf(v, n) == KeyOf(w, m) && !(v == w && n == m);
      CollidingIsConfusable(v, n, w, m);
    }
    if Confusable(v, w) {
      if v + SEPARATOR <= w {
        SeparatorMoves(v, w[|v| + 3..], "");
        assert v + SEPARATOR + w[|v| + 3..] == w;
        assert KeyOf(v, w[|v| + 3..] + SEPARATOR) == KeyOf(w, "");
      } else {
        var u := w[|v|..];
        assert w == v + u && u <= SEPARATOR;
        UnderscoresMove(v, u, "");
        assert KeyOf(v, u) == KeyOf(w, "");
      }
    }
  }

  lemma CollidingIsConfusable(v: string, n: string, w: string, m: string)
    requires |v| <= |w| && KeyOf(v, n) == KeyOf(w, m) && !(v == w && n == m)
    ensures Confusable(v, w)
  {
    var key := KeyOf(v, n);
    assert key[..|v|] == v && key[..|w|] == w && key[..|v| + 3] == v + SEPARATOR;
    assert v == w[..|v|];
    if v == w {
      CancelPrefix(v + SEPARATOR, n, m);
    } else if |w| >= |v| + 3 {
      assert w[..|v| + 3] == v + SEPARATOR;
    } else {
      assert (v + SEPARATOR)[..|w|] == w;
    }
  }

  /** A separator inside the longer VPN name can pose as the one that ends the shorter. */
  lemma SeparatorMoves(v: string, u: string, name: string)
    ensures KeyOf(v + SEPARATOR + u, name) == KeyOf(v, u + SEPARATOR + name)
  {
  }

  /** Underscores may end the VPN name or begin the endpoint's. */
  lemma UnderscoresMove(v: string, u: string, name: string)
    requires u <= SEPARATOR
    ensures KeyOf(v + u, name) == KeyOf(v, u + name)
  {
    var k, l := KeyOf(v + u, name), KeyOf(v, u + name);
    assert forall i :: 0 <= i < |u| ==> u[i] == '_';
    assert forall i :: |v| <= i < |v| + |u| + 3 ==> k[i] == '_' && l[i] == '_';
    assert k[|v| + |u| + 3..] == name == l[|v| + |u| + 3..];
    assert k[..|v|] == v == l[..|v|];
  }

  /** In particular VPN names without an underscore never collide. */
  lemma PlainVpnsNeverCollide(vpn: string, name: string, vpn': string, name': string)
    requires Free(vpn, '_') && Free(vpn', '_')
    requires KeyOf(vpn, name) == KeyOf(vpn', name')
    ensures vpn == vpn' && name == name'
  {
    assert KeyOf(vpn, name) == vpn + ['_'] + ("__" + name) && KeyOf(vpn', name') == vpn' + ['_'] + ("__" + name');
    FirstOccurrence(vpn, "__" + name, vpn', "__" + name', '_');
    CancelPrefix("__", name, name');
  }
}
