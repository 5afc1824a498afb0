/**
 * The notification dropdown's pure logic (components/notifications/
 * notifications.tsx): the displayed title and message of a notification,
 * the unread count, the local read-marking after a click and the badge
 * text. Fetching, the mark-read request and the dropdown's open state
 * are not modelled.
 */
module Notifications {
  import opened Wrappers
  import opened Js

  /** `Notif`: the fields this logic reads. `id` is a number or a string
      and `is_read` a boolean or a number, so both stay values; the other
      fields are optional strings. */
  datatype Notif = Notif(
    id: Option<Json>, title: Option<string>, titleKey: Option<string>,
    message: Option<string>, messageKey: Option<string>,
    messageParams: Option<Json>, isRead: Option<Json>)

  /** A string field is truthy when present and not empty. */
  predicate Given(s: Option<string>)
  {
    s.Some? && s.value != ""
  }

  /** The titles the `title_key` switch knows. */
  function TitleFor(key: string): Option<string>
  {
    match key
    case "SHOP_APPROVED_TITLE" => Some("B space approuvée")
    case "SHOP_DISAPPROVED_TITLE" => Some("B space désapprouvée")
    case "VENDOR_CREATED_TITLE" => Some("Nouvelle boutique créée")
    case "welcome" => Some("Bienvenue")
    case "order.confirmed" => Some("Commande confirmée")
    case "order.new" => Some("Nouvelle commande reçue")
    case "order.shipped" => Some("Commande expédiée")
    case "order.delivered" => Some("Commande livrée")
    case "order.cancelled" => Some("Commande annulée")
    case "order.cancelled.seller" => Some("Commande annulée")
    case "payment.failed" => Some("Paiement échoué")
    case "payment.refunded" => Some("Paiement remboursé")
    case "product.backinstock" => Some("Produit de retour en stock")
    case "product.review" => Some("Nouveau avis")
    case "promotion.new" => Some("Nouvelle promotion disponible")
    case "reminder.cart.abandoned" => Some("Panier abandonné")
    case _ => None
  }

  /** `resolveTitle(n)`. */
  function ResolveTitle(n: Notif): (r: string)
  {
    if Given(n.title) then n.title.value
    else if Given(n.titleKey) then TitleFor(n.titleKey.value).GetOr(n.titleKey.value)
    else ""
  }

  /** Every known key has a title. */
  lemma KnownTitlesNonEmpty(key: string)
    ensures TitleFor(key).Some? ==> TitleFor(key).value != ""
  {
  }

  /** A given title is shown as it is; otherwise a known key shows its
      title and an unknown key itself; the title is empty exactly when
      neither a title nor a key is given. */
  lemma TitleCases(n: Notif)
    ensures Given(n.title) ==> ResolveTitle(n) == n.title.value
    ensures !Given(n.title) && Given(n.titleKey) && TitleFor(n.titleKey.value).Some? ==>
      ResolveTitle(n) == TitleFor(n.titleKey.value).value
    ensures !Given(n.title) && Given(n.titleKey) && TitleFor(n.titleKey.value).None? ==>
      ResolveTitle(n) == n.titleKey.value
    ensures ResolveTitle(n) == "" <==> !Given(n.title) && !Given(n.titleKey)
  {
    if !Given(n.title) && Given(n.titleKey) {
      KnownTitlesNonEmpty(n.titleKey.value);
    }
  }

  /** A message template: the text around one parameter, the parameter's
      name and what stands in for a falsy parameter. */
  datatype Template = Template(prefix: string, param: string, suffix: string, absent: string)

  /** The templates the `message_key` switch knows. */
  function MessageTemplate(key: string): Option<Template>
  {
    match key
    case "SHOP_APPROVED_MESSAGE" => Some(Template("Votre boutique ", "shop_name", " a été approuvée", ""))
    case "SHOP_DISAPPROVED_MESSAGE" => Some(Template("Votre boutique ", "shop_name", " a été désapprouvée", ""))
    case "VENDOR_CREATED_MESSAGE" => Some(Template("Votre boutique ", "shop_name", " a été créée", ""))
    case "welcome" => Some(Template("Vous avez été ajouté à la boutique ", "shopName", "", ""))
    case "order.confirmed" => Some(Template("Votre commande ", "orderId", " a été confirmée avec succès", ""))
    case "order.new" => Some(Template("Vous avez reçu une nouvelle commande ", "orderId", "", ""))
    case "order.shipped" => Some(Template("Votre commande ", "orderId", " a été expédiée", ""))
    case "order.delivered" => Some(Template("Votre commande ", "orderId", " a été livrée", ""))
    case "order.cancelled" => Some(Template("Votre commande ", "orderId", " a été annulée", ""))
    case "order.cancelled.seller" => Some(Template("La commande ", "orderId", " a été annulée par le client", ""))
    case "payment.failed" => Some(Template("Le paiement pour la commande ", "orderId", " a échoué", ""))
    case "payment.refunded" => Some(Template("Le paiement pour la commande ", "orderId", " a été remboursé", ""))
    case "product.backinstock" => Some(Template("Le produit ", "productName", " est de nouveau disponible", ""))
    case "product.review" => Some(Template("Un nouvel avis a été publié pour le produit ", "productName", "", ""))
    case "promotion.new" => Some(Template("Profitez de la promotion : ", "promo", "", ""))
    case "reminder.cart.abandoned" => Some(Template("Vous avez ", "count", " article(s) dans votre panier en attente", "0"))
    case _ => None
  }

  /** `n.message_params || {}`. */
  function Params(n: Notif): Option<Json>
  {
    if Truthy(n.messageParams) then n.messageParams else Some(JObj(map[]))
  }

  /** `${p[param] || absent}`. */
  function Fill(t: Template, p: Option<Json>): string
  {
    var v := Get(p, t.param);
    t.prefix + (if Truthy(v) then StrOf(v) else t.absent) + t.suffix
  }

  /** `resolveMessage(n)`. */
  function ResolveMessage(n: Notif): (r: string)
  {
    if Given(n.message) then n.message.value
    else if n.messageKey.Some? && MessageTemplate(n.messageKey.value).Some? then
      Fill(MessageTemplate(n.messageKey.value).value, Params(n))
    else n.messageKey.GetOr("")
  }

  /** A given message is shown as it is; an unknown key shows itself and
      no key shows nothing; a known key fills its template, leaving the
      parameter's place empty (or "0" for the cart count) when it is
      missing or falsy. */
  lemma MessageCases(n: Notif)
    ensures Given(n.message) ==> ResolveMessage(n) == n.message.value
    ensures !Given(n.message) && n.messageKey.None? ==> ResolveMessage(n) == ""
    ensures !Given(n.message) && n.messageKey.Some? && MessageTemplate(n.messageKey.value).None? ==>
      ResolveMessage(n) == n.messageKey.value
    ensures !Given(n.message) && n.messageKey.Some? && MessageTemplate(n.messageKey.value).Some? ==>
      var t := MessageTemplate(n.messageKey.value).value;
      !Truthy(Get(Params(n), t.param)) ==> ResolveMessage(n) == t.prefix + t.absent + t.suffix
  {
  }

  /** The parameter can be read back from a filled template: between the
      template's fixed prefix and suffix stands the parameter's text. */
  lemma MessageParameterReadsBack(n: Notif, s: string)
    requires !Given(n.message) && n.messageKey.Some? && MessageTemplate(n.messageKey.value).Some?
    requires Get(Params(n), MessageTemplate(n.messageKey.value).value.param) == Some(JStr(s)) && s != ""
    ensures var t := MessageTemplate(n.messageKey.value).value;
      var m := ResolveMessage(n);
      |m| == |t.prefix| + |s| + |t.suffix| && m[..|t.prefix|] == t.prefix &&
      m[|t.prefix|..|m| - |t.suffix|] == s && m[|m| - |t.suffix|..] == t.suffix
  {
    var t := MessageTemplate(n.messageKey.value).value;
    assert ResolveMessage(n) == t.prefix + s + t.suffix;
  }

  /* ---------------------------------------------------------------- */
  /* Unread count, read marking and the badge                         */
  /* ---------------------------------------------------------------- */

  predicate Unread(n: Notif)
  {
    !Truthy(n.isRead)
  }

  /** `notifications.filter((n) => !n?.is_read).length`. */
  function UnreadCount(ns: seq<Notif>): (c: nat)
    ensures c <= |ns|
    ensures c == 0 <==> forall i :: 0 <= i < |ns| ==> !Unread(ns[i])
  {
    if |ns| == 0 then 0
    else (if Unread(ns[0]) then 1 else 0) + UnreadCount(ns[1..])
  }

  /** `{ ...x, is_read: 1 }` for the entries with the clicked id. */
  function MarkRead(ns: seq<Notif>, id: Option<Json>): (r: seq<Notif>)
    ensures |r| == |ns|
    ensures forall i :: 0 <= i < |ns| ==>
      r[i] == if StrictEq(ns[i].id, id) then ns[i].(isRead := Some(JNum(1))) else ns[i]
  {
    if |ns| == 0 then []
    else [if StrictEq(ns[0].id, id) then ns[0].(isRead := Some(JNum(1))) else ns[0]] + MarkRead(ns[1..], id)
  }

  /** The entries a click on `id` marks that were unread. */
  function NewlyRead(ns: seq<Notif>, id: Option<Json>): nat
  {
    if |ns| == 0 then 0
    else (if Unread(ns[0]) && StrictEq(ns[0].id, id) then 1 else 0) + NewlyRead(ns[1..], id)
  }

  /** `onNotifClick(n)`'s local update: the clicked entry is marked, and
      the count drops by the number of unread entries that share its id. */
  function OnNotifClick(ns: seq<Notif>, clicked: Notif): (r: seq<Notif>)
    ensures |r| == |ns|
    ensures forall i :: 0 <= i < |r| ==> StrictEq(ns[i].id, clicked.id) ==> !Unread(r[i])
  {
    MarkRead(ns, clicked.id)
  }

  lemma {:induction false} MarkReadCount(ns: seq<Notif>, id: Option<Json>)
    ensures UnreadCount(MarkRead(ns, id)) + NewlyRead(ns, id) == UnreadCount(ns)
  {
    if |ns| > 0 {
      MarkReadCount(ns[1..], id);
      assert MarkRead(ns, id)[1..] == MarkRead(ns[1..], id);
    }
  }

  /** After a click, the unread count is the old one less the unread
      entries with the clicked id: clicking an unread entry with an id
      lowers it by at least one, and a read one changes nothing when no
      other entry shares its id. */
  lemma ClickLowersCount(ns: seq<Notif>, i: nat)
    requires i < |ns|
    ensures UnreadCount(OnNotifClick(ns, ns[i])) == UnreadCount(ns) - NewlyRead(ns, ns[i].id)
    ensures Unread(ns[i]) && StrictEq(ns[i].id, ns[i].id) ==> UnreadCount(OnNotifClick(ns, ns[i])) < UnreadCount(ns)
  {
    MarkReadCount(ns, ns[i].id);
    if Unread(ns[i]) && StrictEq(ns[i].id, ns[i].id) {
      NewlyReadAt(ns, ns[i].id, i);
    }
  }

  lemma {:induction false} NewlyReadAt(ns: seq<Notif>, id: Option<Json>, i: nat)
    requires i < |ns| && Unread(ns[i]) && StrictEq(ns[i].id, id)
    ensures NewlyRead(ns, id) > 0
  {
    if i > 0 {
      NewlyReadAt(ns[1..], id, i - 1);
    }
  }

  /** `x.id === n.id` holds for two missing ids, so clicking a
      notification without an id marks every other id-less one as read. */
  lemma MissingIdsMatch(ns: seq<Notif>, clicked: Notif, j: nat)
    requires clicked.id.None? && j < |ns| && ns[j].id.None?
    ensures !Unread(OnNotifClick(ns, clicked)[j])
  {
  }

  /** What the badge shows above 99. */
  const BadgeOverflow: string := "99+"

  /** The badge: hidden at zero, the count up to 99, "99+" above. */
  function Badge(count: int): (r: Option<string>)
    ensures r.Some? <==> count > 0
    ensures r.Some? ==> 1 <= |r.value| <= 3
    ensures count > 99 ==> r == Some(BadgeOverflow)
  {
    if count > 0 then Some(if count > 99 then BadgeOverflow else TwoDigits(count); IntToString(count)) else None
  }

  lemma TwoDigits(n: int)
    requires 1 <= n <= 99
    ensures |IntToString(n)| <= 2
  {
    if n >= 10 {
      assert NatToString(n) == NatToString(n / 10) + [DigitChar(n % 10)];
    }
  }

  /** Up to 99 the badge reads back as the count itself. */
  lemma BadgeReadsBack(count: int)
    requires 1 <= count <= 99
    ensures StringToNumber(Badge(count).value) == Int(count)
  {
    IntToStringRoundTrip(count);
  }
}
