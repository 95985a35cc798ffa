/** DNS messages as the proxy sees them: records are a TTL and opaque data. */
module Messages {
  import opened Wrappers
  import opened Texts

  /** uint32 */
  type Word = x: nat | x < 0x1_0000_0000

  datatype RR = RR(ttl: Word, data: string)

  datatype Question = Question(name: string, qtype: nat, qclass: nat)

  datatype Msg = Msg(
    id: nat, rcode: nat, truncated: bool, question: seq<Question>,
    answer: seq<RR>, ns: seq<RR>, extra: seq<RR>)

  const RCODE_SUCCESS := 0
  const RCODE_SERVER_FAILURE := 2
  const RCODE_NAME_ERROR := 3
  const RCODE_REFUSED := 5

  function Records(m: Msg): seq<RR> {
    m.answer + m.ns + m.extra
  }

  /** The empty response dns.Msg.SetRcode makes for a request. */
  function SetRcode(request: Msg, rcode: nat): Msg {
    Msg(request.id, rcode, false, if request.question == [] then [] else [request.question[0]], [], [], [])
  }

  /** A reply without records that answers the request with the given rcode. */
  ghost predicate EmptyReply(m: Msg, request: Msg, rcode: nat) {
    && m.id == request.id && m.rcode == rcode && !m.truncated
    && m.answer == m.ns == m.extra == []
    && m.question == if request.question == [] then [] else [request.question[0]]
  }

  /** Equal but for the id and the records' TTLs. */
  ghost predicate CopyUpToIdAndTtls(a: Msg, b: Msg) {
    && a.rcode == b.rcode && a.truncated == b.truncated && a.question == b.question
    && SameData(a.answer, b.answer) && SameData(a.ns, b.ns) && SameData(a.extra, b.extra)
  }

  ghost predicate SameData(a: seq<RR>, b: seq<RR>) {
    |a| == |b| && forall i :: 0 <= i < |a| ==> a[i].data == b[i].data
  }

  // ---------------------------------------------------------------- cache keys

  function KeyText(q: Question): string {
    ToLower(q.name) + "|" + Digits(q.qtype) + "|" + Digits(q.qclass)
  }

  function CacheKey(request: Option<Msg>): Option<string> {
    if request.None? || request.value.question == [] then None else Some(KeyText(request.value.question[0]))
  }

  ghost predicate SameQuestion(a: Question, b: Question) {
    ToLower(a.name) == ToLower(b.name) && a.qtype == b.qtype && a.qclass == b.qclass
  }

  /** Keys never collide, even when names contain the separator. */
  lemma KeysCollideOnlyForSameQuestion(a: Question, b: Question)
    ensures KeyText(a) == KeyText(b) <==> SameQuestion(a, b)
  {
    if KeyText(a) == KeyText(b) {
      var bar := '|';
      LastSeparator(ToLower(a.name) + "|" + Digits(a.qtype), Digits(a.qclass),
                    ToLower(b.name) + "|" + Digits(b.qtype), Digits(b.qclass), bar);
      LastSeparator(ToLower(a.name), Digits(a.qtype), ToLower(b.name), Digits(b.qtype), bar);
      DigitsInjective(a.qtype, b.qtype);
      DigitsInjective(a.qclass, b.qclass);
    }
  }
}
