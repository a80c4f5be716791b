/** The metadata documents the server itself writes, and how readers decode metadata text. */
module Metadata {
  import opened Bytes
  import opened Canon

  /** A document serialised by the server into an event's metadata. */
  datatype Meta =
    | Envelope(run: Text, agentName: Text, agentVersion: Text, subjectRef: Option<Text>, labels: map<Text, Text>)
    | Finished(eventCount: nat)
    | Redacted(target: nat, fields: seq<string>, authority: Text)
    | Requested(action: Text, expiresAt: nat)
    | Resolved(
        gate: nat, decision: Text, reviewer: Option<Text>, principal: Option<Text>,
        attested: bool, note: Option<Text>)

  /** What the readers look up in metadata: each member, when present with the type asked for. */
  datatype MetaView = MetaView(
    run: Option<Text>,
    action: Option<Text>,
    expiresAt: Option<nat>,
    targetSeq: Option<nat>,
    decision: Option<Text>,
    reviewer: Option<Text>,
    principal: Option<Text>,
    attested: Option<bool>,
    note: Option<Text>)

  const NULL_VIEW := MetaView(None, None, None, None, None, None, None, None, None)

  /** The view a faithful JSON codec gives of a document the server wrote. */
  function ViewOf(m: Meta): MetaView {
    match m
    case Envelope(run, _, _, _, _) => NULL_VIEW.(run := Some(run))
    case Finished(_) => NULL_VIEW
    case Redacted(target, _, _) => NULL_VIEW.(targetSeq := Some(target))
    case Requested(action, expiresAt) => NULL_VIEW.(action := Some(action), expiresAt := Some(expiresAt))
    case Resolved(gate, decision, reviewer, principal, attested, note) =>
      NULL_VIEW.(targetSeq := Some(gate), decision := Some(decision), reviewer := reviewer,
                 principal := principal, attested := Some(attested), note := note)
  }

  /** The code the model cannot see: the hash function and the JSON encoder and decoder. */
  datatype Env = Env(hash: HashFn, encode: Meta -> Text, decode: Text -> MetaView)

  /** All that is ever assumed of the codec: what the server serialised decodes to its own members. */
  ghost predicate Faithful(env: Env) {
    forall m: Meta :: env.decode(env.encode(m)) == ViewOf(m)
  }
}
