/** The identifiers the tables are keyed by. Only equality matters for most of them, so they are
    opaque; where the source derives one identifier from others through a hash, the identifier is
    the tuple of what it was derived from, which makes the hash injective by construction. */
module Identifiers {
  import opened SyncRun

  type Fingerprint(==, !new)
  type RunId(==, !new)
  type ExternalId(==, !new)
  type IdempotencyKey(==, !new)
  type LeaseId(==, !new)
  type Destination(==, !new)
  type Payload(==, !new)
  type Raw(==, !new)

  /** `collect:<source>:<run>` for a collection job, any other text otherwise. */
  datatype DedupeKey = CollectKey(source: Source, run: RunId) | ItemKey(fingerprint: Fingerprint)

  /** A job id is a UUID drawn for one job, so one job id never names two dedupe keys. */
  datatype JobId = JobId(key: DedupeKey, nonce: int)

  /** Cloudflare's message ids, and the `replay-<sha256>` ids made from a job id and an
      idempotency key. The two families never meet. */
  datatype MessageId = External(id: ExternalId) | ReplayMessage(jobId: JobId, key: IdempotencyKey)

  datatype ItemKind = Link | Text | File | Article

  datatype JobKind = CollectSource | DispatchItem(item: ItemKind)

  datatype Job = Job(jobId: JobId, kind: JobKind, createdAt: int, schemaVersion: int, payload: Payload) {
    function DedupeKey(): DedupeKey { jobId.key }

    predicate IsArticle() { kind == DispatchItem(Article) }
  }

  /** A message body: what `parseQueueJob` accepts, or something it rejects. */
  datatype Body = Parsed(job: Job) | Malformed(raw: Raw)

  /** SHA-256 of the JSON text of a body. */
  datatype Digest = Digest(of: Body)

  datatype EffectKey = EffectKey(dedupeKey: DedupeKey, destination: Destination)
}
