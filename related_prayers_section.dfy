/**
 * The "related prayers" section under a prayer topic. Once the vault is
 * unlocked it asks for the topic's first five prayers, decrypts each
 * prayer's content, and shows either a loading skeleton, an invitation to
 * write the first prayer, or one card per prayer with a short preview and a
 * "view all" link when the topic has more than five prayers.
 *
 * The request is an input (the reply the API client resolved to) and so is
 * `decryptData`, as a function from ciphertext to the text or the value it
 * throws.
 */
module RelatedPrayersSection {
  import opened JsValues
  import EncryptionApi
  import PrayerUtils
  import Text

  const DefaultPreviewLength := 80
  /** `{ size: 5 }`, and the count above which "view all" is offered. */
  const PageSize := 5
  const Ellipsis := "..."

  /** `getPreviewText(text, maxLength)`: the text when it fits, else its first `maxLength` characters and an ellipsis; nothing is trimmed. */
  function PreviewText(text: string, maxLength: nat): (preview: string)
    ensures |text| <= maxLength ==> preview == text
    ensures |text| > maxLength ==>
              |preview| == maxLength + |Ellipsis| && preview[..maxLength] == text[..maxLength]
              && preview[maxLength..] == Ellipsis
    ensures |preview| <= maxLength + |Ellipsis|
  {
    if |text| <= maxLength then text else text[..maxLength] + Ellipsis
  }

  /** `enabled`: the query runs only with an unlocked vault and a topic id. */
  function QueryEnabled(isUnlocked: bool, prayerTopicId: string): (enabled: bool)
    ensures enabled <==> isUnlocked && prayerTopicId != ""
  {
    isUnlocked && |prayerTopicId| > 0
  }

  datatype RelatedPrayer = RelatedPrayer(id: string, content: string, createdAt: string)

  /** The page the endpoint returns. */
  datatype RelatedPage = RelatedPage(content: seq<RelatedPrayer>, totalElements: int)

  /** What the query resolves to. */
  datatype Related = Related(prayers: seq<RelatedPrayer>, totalElements: int)

  /**
   * `Promise.all` over the decryptions: every content decrypted, or one of
   * the failures. The model takes the first in page order; the contract
   * claims only that the error is one a decryption threw, since which
   * rejection settles first is a matter of timing.
   */
  function DecryptAll(prayers: seq<RelatedPrayer>, decrypt: string -> Result<string>): (r: Result<seq<RelatedPrayer>>)
    ensures r.Ok? <==> forall i :: 0 <= i < |prayers| ==> decrypt(prayers[i].content).Ok?
    ensures r.Ok? ==> |r.value| == |prayers|
    ensures r.Ok? ==> forall i :: 0 <= i < |prayers| ==>
              r.value[i] == prayers[i].(content := decrypt(prayers[i].content).value)
    ensures r.Throw? ==> exists i :: 0 <= i < |prayers| && decrypt(prayers[i].content) == Throw(r.error)
  {
    if prayers == [] then Ok([])
    else
      match decrypt(prayers[0].content)
      case Throw(e) => Throw(e)
      case Ok(text) =>
        match DecryptAll(prayers[1..], decrypt)
        case Throw(e) =>
          assert forall i :: 0 <= i < |prayers| - 1 ==> prayers[1..][i] == prayers[i + 1];
          Throw(e)
        case Ok(rest) =>
          assert forall i :: 0 < i < |prayers| ==> prayers[i] == prayers[1..][i - 1];
          Ok([prayers[0].(content := text)] + rest)
  }

  /**
   * The query function: an error reply throws its message, a reply
   * without data is an empty result, and otherwise the page's prayers are
   * decrypted and its total kept.
   */
  function FetchRelated(reply: EncryptionApi.ApiResult<RelatedPage>, decrypt: string -> Result<string>): (r: Result<Related>)
    ensures reply.error.Some? ==> r == Throw(JsError(reply.error.value.message))
    ensures reply.error.None? && reply.data.None? ==> r == Ok(Related([], 0))
    ensures reply.error.None? && reply.data.Some? ==>
              (r.Ok? <==> forall i :: 0 <= i < |reply.data.value.content| ==>
                            decrypt(reply.data.value.content[i].content).Ok?)
    ensures reply.error.None? && reply.data.Some? && r.Ok? ==>
              r.value.totalElements == reply.data.value.totalElements
              && |r.value.prayers| == |reply.data.value.content|
              && forall i :: 0 <= i < |r.value.prayers| ==>
                   r.value.prayers[i].id == reply.data.value.content[i].id
                   && r.value.prayers[i].createdAt == reply.data.value.content[i].createdAt
  {
    if reply.error.Some? then Throw(JsError(reply.error.value.message))
    else if reply.data.None? then Ok(Related([], 0))
    else
      var prayers :- DecryptAll(reply.data.value.content, decrypt);
      Ok(Related(prayers, reply.data.value.totalElements))
  }

  /** One prayer card: its link, its raw creation date, and its preview. */
  datatype Card = Card(href: string, createdAt: string, preview: string)

  datatype SectionView =
    | Skeleton
    | NoPrayers(newPrayerHref: string)
    | Listing(totalElements: int, viewAllHref: Option<string>, cards: seq<Card>)

  /**
   * What the section renders, given whether the query is loading and the
   * data it holds (`None` while disabled, before the first result, or
   * after a failure).
   */
  function Render(prayerTopicId: string, isLoading: bool, data: Option<Related>): (view: SectionView)
    ensures isLoading ==> view == Skeleton
    ensures !isLoading && (data.None? || data.value.prayers == []) ==>
              view == NoPrayers("/prayers/new?prayerTopicId=" + prayerTopicId)
    ensures view.Listing? ==> data.Some? && |view.cards| == |data.value.prayers| > 0
                              && view.totalElements == data.value.totalElements
    ensures view.Listing? ==> (view.viewAllHref.Some? <==> view.totalElements > PageSize)
    ensures view.Listing? && view.viewAllHref.Some? ==>
              view.viewAllHref.value == "/prayers?prayerTopicId=" + prayerTopicId
    ensures view.Listing? ==> forall i :: 0 <= i < |view.cards| ==>
              view.cards[i].href == "/prayers/" + data.value.prayers[i].id
              && view.cards[i].preview == PreviewText(data.value.prayers[i].content, DefaultPreviewLength)
              && |view.cards[i].preview| <= DefaultPreviewLength + |Ellipsis|
  {
    if isLoading then Skeleton
    else
      var prayers := if data.Some? then data.value.prayers else [];
      var total := if data.Some? then data.value.totalElements else 0;
      if prayers == [] then NoPrayers("/prayers/new?prayerTopicId=" + prayerTopicId)
      else
        Listing(total,
                if total > PageSize then Some("/prayers?prayerTopicId=" + prayerTopicId) else None,
                seq(|prayers|, i requires 0 <= i < |prayers| =>
                      Card("/prayers/" + prayers[i].id, prayers[i].createdAt,
                           PreviewText(prayers[i].content, DefaultPreviewLength))))
  }

  // ---------------------------------------------------------------------
  // Properties

  /** On text with no surrounding white space, this preview and the prayer list's preview agree. */
  lemma PreviewMatchesPrayerPreview(text: string, maxLength: nat)
    requires Text.Trim(text) == text
    ensures PreviewText(text, maxLength) == PrayerUtils.PreviewText(text, maxLength)
  {
  }

  /**
   * A reply with a non-empty page whose contents all decrypt is shown as
   * one card per prayer, in page order, under the page's total, linking to
   * each decrypted prayer.
   */
  lemma FetchedPageIsListed(prayerTopicId: string, page: RelatedPage, decrypt: string -> Result<string>)
    requires page.content != []
    requires forall i :: 0 <= i < |page.content| ==> decrypt(page.content[i].content).Ok?
    ensures var r := FetchRelated(EncryptionApi.ApiResult(Some(page), None), decrypt);
      r.Ok? &&
      var view := Render(prayerTopicId, false, Some(r.value));
      view.Listing? && view.totalElements == page.totalElements && |view.cards| == |page.content|
      && forall i :: 0 <= i < |page.content| ==>
           view.cards[i].href == "/prayers/" + page.content[i].id
           && view.cards[i].preview
              == PreviewText(decrypt(page.content[i].content).value, DefaultPreviewLength)
  {
    var r := FetchRelated(EncryptionApi.ApiResult(Some(page), None), decrypt);
    assert r.value.prayers == DecryptAll(page.content, decrypt).value;
  }

  /** A locked vault never shows cards: the query stays disabled and the section offers the first prayer. */
  lemma LockedShowsInvitation(prayerTopicId: string)
    ensures !QueryEnabled(false, prayerTopicId)
    ensures Render(prayerTopicId, false, None) == NoPrayers("/prayers/new?prayerTopicId=" + prayerTopicId)
  {
  }
}
