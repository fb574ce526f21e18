/** Decision counters: totals by outcome, and counters keyed by port, outcome and reason. */
module Decisions {
  import opened Options
  import Scanner

  datatype Port = WritePort | ReadPort | CompatPort | InvalidPort
  datatype Kind = KindLeased | KindRejected | KindFallback
  datatype Tally = Tally(total: nat, leased: nat, rejected: nat, fallback: nat)

  function Of(t: Tally, k: Kind): nat {
    match k
    case KindLeased => t.leased
    case KindRejected => t.rejected
    case KindFallback => t.fallback
  }

  /** One more outcome of this kind. */
  function Bump(t: Tally, k: Kind): Tally {
    match k
    case KindLeased => t.(leased := t.leased + 1)
    case KindRejected => t.(rejected := t.rejected + 1)
    case KindFallback => t.(fallback := t.fallback + 1)
  }

  function Started(t: Tally): Tally {
    t.(total := t.total + 1)
  }

  function Incremented(m: map<string, nat>, key: string): map<string, nat> {
    m[key := 1 + if key in m then m[key] else 0]
  }

  // ---------- keys ----------

  function PortName(p: Port): string {
    match p
    case WritePort => "write"
    case ReadPort => "read"
    case CompatPort => "compat"
    case InvalidPort => "invalid"
  }

  function KindName(k: Kind): string {
    match k
    case KindLeased => "leased"
    case KindRejected => "rejected"
    case KindFallback => "fallback"
  }

  function Key(port: Port, kind: Kind, reason: string): string {
    PortName(port) + ":" + KindName(kind) + ":" + reason
  }

  /** `strings.SplitN(key, ":", 3)`, when it yields three parts. */
  function SplitKey(key: string): Option<(string, string, string)> {
    var i := Scanner.IndexOf(key, ":");
    if i < 0 then None
    else
      var rest := key[i + 1..];
      var j := Scanner.IndexOf(rest, ":");
      if j < 0 then None else Some((key[..i], rest[..j], rest[j + 1..]))
  }

  lemma {:induction false} FirstColon(head: string, tail: string)
    requires ':' !in head
    ensures Scanner.IndexOf(head + ":" + tail, ":") == |head|
  {
    var s := head + ":" + tail;
    forall i | 0 <= i < |s| ensures Scanner.At(s, ":", i) <==> s[i] == ':' {
      assert s[i..i + 1] == [s[i]];
    }
    Scanner.IndexOfUnique(s, ":", |head|);
  }

  /** Each key splits back to its port, outcome and reason, for any reason text. */
  lemma {:induction false} KeySplitsBack(port: Port, kind: Kind, reason: string)
    ensures SplitKey(Key(port, kind, reason)) == Some((PortName(port), KindName(kind), reason))
  {
    var rest := KindName(kind) + ":" + reason;
    assert Key(port, kind, reason) == PortName(port) + ":" + rest;
    FirstColon(PortName(port), rest);
    FirstColon(KindName(kind), reason);
    var key := PortName(port) + ":" + rest;
    assert key[..|PortName(port)|] == PortName(port) && key[|PortName(port)| + 1..] == rest;
    assert rest[..|KindName(kind)|] == KindName(kind) && rest[|KindName(kind)| + 1..] == reason;
  }

  ghost predicate HasKind(key: string, kind: Kind) {
    SplitKey(key).Some? && SplitKey(key).value.1 == KindName(kind)
  }

  lemma {:induction false} KeyHasKind(port: Port, kind: Kind, reason: string, other: Kind)
    ensures HasKind(Key(port, kind, reason), other) <==> kind == other
  {
    KeySplitsBack(port, kind, reason);
    assert KindName(KindLeased) != KindName(KindRejected);
    assert KindName(KindLeased)[0] == 'l' && KindName(KindRejected)[0] == 'r' && KindName(KindFallback)[0] == 'f';
  }
}
