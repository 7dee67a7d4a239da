/**
 * The notifier (`sendWakeEvent`, index.js:77-115), split into its two steps:
 * the attempt, which consults the cooldown ledger and either skips or makes a
 * request, and the response, which writes the ledger only on HTTP 200 and
 * only with the time the attempt was made.
 */
module Notifier {
  import opened Config

  /** `lastWakeEvents`: the time of the last confirmed delivery of each event type. */
  type Ledger = map<EventType, int>

  /** One POST to the wake webhook: the JSON payload, the bearer header, and when it was attempted. */
  datatype WakeRequest = WakeRequest(event: EventType, text: string, mode: string, authorization: string, attemptedAt: int)

  /** What comes back for a request: a status code, or a transport-level `error` event. */
  datatype WakeResponse = HttpStatus(code: int) | TransportError(message: string)

  /** `lastWakeEvents[e] || 0`: an event type never delivered reads as delivered at time 0. */
  function LastSent(ledger: Ledger, e: EventType): int
  {
    if e in ledger then ledger[e] else 0
  }

  predicate InCooldown(ledger: Ledger, e: EventType, now: int)
  {
    now - LastSent(ledger, e) < WakeCooldownMs
  }

  /** The attempt step: no request while e is cooling down, otherwise exactly one. */
  function Attempt(ledger: Ledger, token: string, e: EventType, text: string, now: int): (sent: seq<WakeRequest>)
    ensures |sent| <= 1
    ensures sent == [] <==> now < LastSent(ledger, e) + WakeCooldownMs
    ensures sent != [] ==> sent[0].event == e && sent[0].text == text && sent[0].attemptedAt == now
    ensures sent != [] ==> sent[0].mode == "now" && sent[0].authorization == "Bearer " + token
  {
    if InCooldown(ledger, e, now) then [] else [WakeRequest(e, text, "now", "Bearer " + token, now)]
  }

  predicate Delivered(response: WakeResponse)
  {
    response.HttpStatus? && response.code == 200
  }

  /** The response step: only a 200 records the request, at its attempt time; nothing else moves. */
  function Record(ledger: Ledger, request: WakeRequest, response: WakeResponse): (after: Ledger)
    ensures forall e :: e != request.event ==> LastSent(after, e) == LastSent(ledger, e)
    ensures LastSent(after, request.event) == if Delivered(response) then request.attemptedAt else LastSent(ledger, request.event)
    ensures !Delivered(response) ==> after == ledger
    ensures after.Keys == if Delivered(response) then ledger.Keys + {request.event} else ledger.Keys
  {
    if Delivered(response) then ledger[request.event := request.attemptedAt] else ledger
  }

  /**
   * After a delivered request, the same event type is skipped for the rest of
   * the cooldown window and allowed again once it has elapsed.
   */
  lemma DeliveryStartsCooldown(ledger: Ledger, token: string, e: EventType, text: string, now: int, text': string, later: int)
    requires Attempt(ledger, token, e, text, now) != []
    ensures var after := Record(ledger, Attempt(ledger, token, e, text, now)[0], HttpStatus(200));
      Attempt(after, token, e, text', later) == [] <==> later < now + WakeCooldownMs
  {
  }

  /**
   * A non-200 answer or a transport error leaves the gate open: any later
   * attempt of the same type is not skipped.
   */
  lemma FailedDeliveryKeepsGateOpen(ledger: Ledger, token: string, e: EventType, text: string, now: int,
                                    response: WakeResponse, text': string, later: int)
    requires Attempt(ledger, token, e, text, now) != []
    requires !Delivered(response)
    requires now <= later
    ensures Attempt(Record(ledger, Attempt(ledger, token, e, text, now)[0], response), token, e, text', later) != []
  {
  }

  /**
   * The ledger moves only on a response, so two attempts made before either
   * response arrives both pass the gate: two requests go out within the
   * cooldown window.
   */
  lemma InFlightAttemptsBothPass(ledger: Ledger, token: string, e: EventType, text1: string, t1: int, text2: string, t2: int)
    requires Attempt(ledger, token, e, text1, t1) != []
    requires t1 <= t2 < t1 + WakeCooldownMs
    ensures Attempt(ledger, token, e, text2, t2) != []
  {
  }

  /**
   * When the responses to two in-flight requests arrive in the opposite
   * order, the ledger ends with the earlier attempt's time.
   */
  lemma LateResponseRewindsLedger(ledger: Ledger, first: WakeRequest, second: WakeRequest)
    requires first.event == second.event && first.attemptedAt < second.attemptedAt
    ensures var after := Record(Record(ledger, second, HttpStatus(200)), first, HttpStatus(200));
      LastSent(after, first.event) == first.attemptedAt < second.attemptedAt
  {
  }
}
