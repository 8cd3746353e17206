/**
 The fingerprint of jobs that were compiled, read by a reader that reads JSON: the
 payload shows in it exactly by what it runs.

 The text the compiler stamps is its own normal form, so normalising it before the
 hash changes nothing; a job is re-fired for its payload exactly when its last
 runner block that compiles runs something else.
 */
module CompiledHash {
  import opened Wrappers
  import opened Folds
  import opened CroniqAst
  import opened Compile
  import opened CompileLaws
  import F = Fingerprint
  import H = JobHash

  /** A compiled table is hashed as it is. */
  lemma StampIsNormal(read: F.Reader, c: Context, job: JobBlock, defaults: JobDefaults, k: string)
    requires F.ReadsJson(read)
    ensures var m := JobOf(c, job, defaults).draft.metadata; H.HashedText(read, m, k) == Lookup(m, k)
  {
    if k == RUNNER_EXEC {
      RunnerStamp(c, job, defaults);
      LastExecNames(c, job.body);
      if LastExec(c, job.body).Some? {
        F.NormalExecFixed(read, LastExec(c, job.body).value);
      }
    }
  }

  /** The hashed payloads of two compiled jobs are the same exactly when they run the same thing. */
  lemma HashedPayloadExact(
      read: F.Reader, c: Context, a: JobBlock, da: JobDefaults, d: Context, b: JobBlock, db: JobDefaults)
    requires F.ReadsJson(read)
    ensures H.HashedText(read, JobOf(c, a, da).draft.metadata, RUNNER_EXEC)
         == H.HashedText(read, JobOf(d, b, db).draft.metadata, RUNNER_EXEC)
       <==> SameExec(LastExec(c, a.body), LastExec(d, b.body))
  {
    StampIsNormal(read, c, a, da, RUNNER_EXEC);
    StampIsNormal(read, d, b, db, RUNNER_EXEC);
    RunnerStampExact(c, a, da, d, b, db);
  }

  /** The same metadata but for the payload. */
  ghost predicate SameOthers(m: Table, n: Table) {
    forall k :: k != RUNNER_EXEC ==> Lookup(m, k) == Lookup(n, k)
  }

  lemma HashedMetadataExact(
      read: F.Reader, c: Context, a: JobBlock, da: JobDefaults, d: Context, b: JobBlock, db: JobDefaults)
    requires F.ReadsJson(read)
    ensures var m, n := JobOf(c, a, da).draft.metadata, JobOf(d, b, db).draft.metadata;
            H.SameHashedTexts(read, m, n) <==> SameExec(LastExec(c, a.body), LastExec(d, b.body)) && SameOthers(m, n)
  {
    var m, n := JobOf(c, a, da).draft.metadata, JobOf(d, b, db).draft.metadata;
    HashedPayloadExact(read, c, a, da, d, b, db);
    forall k ensures k != RUNNER_EXEC ==> H.HashedText(read, m, k) == Lookup(m, k) {
    }
    forall k ensures k != RUNNER_EXEC ==> H.HashedText(read, n, k) == Lookup(n, k) {
    }
  }

  /** Everything that is hashed of two jobs but their metadata is the same. */
  ghost predicate SameSettings(a: JobConfig, b: JobConfig) {
    forall f: H.JobField :: !H.Ignored(f) && !f.MetadataField? ==> H.AgreeSetting(a, b, f)
  }

  /**
   Two compiled jobs have the same hashed text exactly when they agree on every setting
   that is not ignored, run the same payload and carry the same other metadata.
   */
  lemma CompiledHashExact(
      read: F.Reader, c: Context, a: JobBlock, da: JobDefaults, d: Context, b: JobBlock, db: JobDefaults,
      s: H.Source, t: H.Source)
    requires F.ReadsJson(read)
    requires H.IsSource(s) && s.job == JobOf(c, a, da) && H.IsSource(t) && t.job == JobOf(d, b, db)
    ensures F.ConfigText(read, H.JobValue(s)) == F.ConfigText(read, H.JobValue(t))
       <==> (SameSettings(s.job, t.job) && SameExec(LastExec(c, a.body), LastExec(d, b.body))
             && SameOthers(s.job.draft.metadata, t.job.draft.metadata))
  {
    H.HashExact(read, s, t);
    HashedMetadataExact(read, c, a, da, d, b, db);
    AgreementParts(read, s.job, t.job);
  }

  lemma AgreementParts(read: F.Reader, a: JobConfig, b: JobConfig)
    ensures (forall f :: !H.Ignored(f) ==> H.Agree(read, a, b, f))
       <==> SameSettings(a, b) && H.SameHashedTexts(read, a.draft.metadata, b.draft.metadata)
  {
    if forall f :: !H.Ignored(f) ==> H.Agree(read, a, b, f) {
      assert H.Agree(read, a, b, H.MetadataField);
      forall f: H.JobField | !H.Ignored(f) && !f.MetadataField? ensures H.AgreeSetting(a, b, f) {
        assert H.Agree(read, a, b, f);
      }
    }
    if SameSettings(a, b) && H.SameHashedTexts(read, a.draft.metadata, b.draft.metadata) {
      forall f: H.JobField | !H.Ignored(f) ensures H.Agree(read, a, b, f) {
        assert f.MetadataField? || H.AgreeSetting(a, b, f);
      }
    }
  }
}
