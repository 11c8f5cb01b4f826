/**
 * The admin notice the purge leaves for the user who triggered it, and how
 * it is classed when shown: cf-auto-purge.php.  A notice is an error notice
 * exactly when it mentions 错误 ("error").
 */
module PurgeNotice {
  import opened Wrappers
  import opened Text

  const ERROR_PREFIX: string := "CF API 错误: "
  const UNKNOWN_ERROR: string := "未知错误。"
  const ERROR_WORD: string := "错误"
  const SUCCESS_HEAD: string := "成功：已向Cloudflare发送刷新请求，共涉及 "
  const SUCCESS_TAIL: string := " 个URL。"
  const NOTICE_ERROR: string := "notice-error"
  const NOTICE_SUCCESS: string := "notice-success"

  /** How the purge request ended: a transport error, or a decoded reply. */
  datatype PurgeResponse =
    | PurgeTransportError(message: string)
    | PurgeReply(success: bool, firstError: Option<string>)

  /** `isset($body['success']) && $body['success']`. */
  predicate Succeeded(response: PurgeResponse)
  {
    response.PurgeReply? && response.success
  }

  /** The success text, with the number of URLs as `%d` renders it. */
  function SuccessNotice(count: nat): string
  {
    SUCCESS_HEAD + DecimalString(count) + SUCCESS_TAIL
  }

  /** The notice stored after a purge request that covered `count` distinct URLs. */
  function Notice(response: PurgeResponse, count: nat): string
  {
    match response
    case PurgeTransportError(message) => ERROR_PREFIX + message
    case PurgeReply(success, firstError) =>
      if success then SuccessNotice(count)
      else ERROR_PREFIX + (match firstError case Some(m) => m case None => UNKNOWN_ERROR)
  }

  /** `stripos($notice, '错误') !== false`. */
  predicate MentionsError(notice: string)
  {
    ContainsCaseless(notice, ERROR_WORD)
  }

  /**
   * The CSS class the notice is shown with: the error class exactly when 错误
   * occurs somewhere in the notice, the success class otherwise.
   */
  function NoticeClass(notice: string): (c: string)
    ensures c == NOTICE_ERROR <==> exists i :: OccursAt(notice, ERROR_WORD, i)
    ensures c == NOTICE_ERROR || c == NOTICE_SUCCESS
  {
    ErrorWordCaseless(notice);
    ContainsIffOccurs(notice, ERROR_WORD);
    if MentionsError(notice) then NOTICE_ERROR else NOTICE_SUCCESS
  }

  /** PHP truthiness of a string: every string but "" and "0". */
  predicate Truthy(s: string)
  {
    s != "" && s != "0"
  }

  /** 错误 has no letter that case-folding changes, so the caseless search is the plain one. */
  lemma ErrorWordCaseless(notice: string)
    ensures MentionsError(notice) <==> Contains(notice, ERROR_WORD)
  {
    CaselessWithoutLetters(notice, ERROR_WORD);
  }

  lemma SuccessNoticeLacksErrorChar(count: nat)
    ensures '错' !in SuccessNotice(count)
  {
    assert '错' !in SUCCESS_HEAD && '错' !in SUCCESS_TAIL;
    assert '错' !in DecimalString(count);
  }

  /** A success notice never mentions an error. */
  lemma SuccessNoticeNotError(count: nat)
    ensures !MentionsError(SuccessNotice(count))
  {
    ErrorWordCaseless(SuccessNotice(count));
    ContainedCharsOccur(SuccessNotice(count), ERROR_WORD);
    SuccessNoticeLacksErrorChar(count);
    assert '错' in ERROR_WORD;
  }

  /** Every failure notice starts with the prefix and so mentions an error. */
  lemma PrefixedMentionsError(message: string)
    ensures MentionsError(ERROR_PREFIX + message)
  {
    var s := ERROR_PREFIX + message;
    assert s[7..9] == ERROR_WORD;
    ContainsAt(s, ERROR_WORD, 7);
    ErrorWordCaseless(s);
  }

  /**
   * The stored notice is shown as an error exactly when the purge did not
   * succeed: a transport error or an unsuccessful reply.
   */
  lemma NoticeErrorIffFailed(response: PurgeResponse, count: nat)
    ensures NoticeClass(Notice(response, count)) == NOTICE_ERROR <==> !Succeeded(response)
  {
    match response {
      case PurgeTransportError(message) =>
        PrefixedMentionsError(message);
      case PurgeReply(success, firstError) =>
        if success {
          SuccessNoticeNotError(count);
        } else {
          PrefixedMentionsError(match firstError case Some(m) => m case None => UNKNOWN_ERROR);
        }
    }
  }

  /** Every stored notice is truthy, so it is always shown once. */
  lemma NoticeTruthy(response: PurgeResponse, count: nat)
    ensures Truthy(Notice(response, count))
  {
    var n := Notice(response, count);
    assert |n| >= |ERROR_PREFIX| || |n| >= |SUCCESS_HEAD|;
  }

  /** The success notice names the count: different counts give different texts. */
  lemma SuccessNoticeInjective(m: nat, n: nat)
    requires SuccessNotice(m) == SuccessNotice(n)
    ensures m == n
  {
    var a := SuccessNotice(m);
    var b := SuccessNotice(n);
    var h := |SUCCESS_HEAD|;
    var t := |SUCCESS_TAIL|;
    assert a[h..|a| - t] == DecimalString(m);
    assert b[h..|b| - t] == DecimalString(n);
    DecimalInjective(m, n);
  }
}
