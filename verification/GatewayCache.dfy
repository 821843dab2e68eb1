/** What the response cache of gateway/cache.go serves, over the runs of module Gateway. */
module GatewayCache {
  import opened Wrappers
  import opened Json
  import opened Gateway

  // ---------------------------------------------------------------- the cache key

  /** Under one model the hashed text determines the request text. */
  lemma KeyDeterminesText(text: Text, text': Text, model: Text)
    requires KeyText(text, model) == KeyText(text', model)
    ensures text == text'
  {
    var key, key' := KeyText(text, model), KeyText(text', model);
    assert text == key[|VERSION|..|VERSION| + |text|] && text' == key'[|VERSION|..|VERSION| + |text'|];
  }

  predicate EndsWith(s: Text, suffix: Text) { |suffix| <= |s| && s[|s| - |suffix|..] == suffix }

  /** Some two texts that can be asked for have the same key under the two models. */
  ghost predicate Collide(model: Text, model': Text) {
    exists text, text' :: text != [] && text' != [] && KeyText(text, model) == KeyText(text', model')
  }

  lemma KeySuffix(text: Text, model: Text)
    ensures EndsWith(KeyText(text, model), model) && EndsWith(KeyText(text, model), [COLON] + model)
  {
  }

  lemma CollidingSuffix(text: Text, text': Text, model: Text, model': Text)
    requires KeyText(text, model) == KeyText(text', model') && |model| < |model'|
    ensures EndsWith(model', [COLON] + model)
  {
    var key := KeyText(text, model);
    KeySuffix(text, model);
    KeySuffix(text', model');
    assert model'[|model'| - |model| - 1..] == key[|key| - |model| - 1..];
  }

  lemma SuffixCollides(model: Text, model': Text)
    requires EndsWith(model', [COLON] + model)
    ensures Collide(model, model') && Collide(model', model)
  {
    var prefix := model'[..|model'| - |model| - 1];
    assert model' == prefix + ([COLON] + model);
    var text, text' := [0x78, COLON] + prefix, [0x78];  // "x:" + prefix and "x"
    assert text + [COLON] + model == text' + [COLON] + model';
    assert KeyText(text, model) == VERSION + (text + [COLON] + model);
    assert KeyText(text', model') == VERSION + (text' + [COLON] + model');
  }

  /** Two models share a key exactly when one of them, after a colon, ends the other. */
  lemma ModelsCollideIff(model: Text, model': Text)
    requires model != model'
    ensures Collide(model, model') <==> EndsWith(model', [COLON] + model) || EndsWith(model, [COLON] + model')
  {
    if Collide(model, model') {
      var text, text' :| text != [] && text' != [] && KeyText(text, model) == KeyText(text', model');
      if |model| < |model'| {
        CollidingSuffix(text, text', model, model');
      } else if |model'| < |model| {
        CollidingSuffix(text', text, model', model);
      } else {
        KeySuffix(text, model);
        KeySuffix(text', model');
      }
    }
    if EndsWith(model', [COLON] + model) { SuffixCollides(model, model'); }
    if EndsWith(model, [COLON] + model') { SuffixCollides(model', model); }
  }

  // ---------------------------------------------------------------- the invariant

  /** The provider gave this value for a text with this key. */
  ghost predicate Sourced(cfg: Config, log: Log, key: Text, value: Text) {
    exists k :: 0 <= k < |log.ai| && log.ai[k].result == Some(value) && CacheKey(cfg.hash, log.ai[k].text, cfg.model) == key
  }

  /** The result a handler holds, from the cache or from the provider. */
  function Held(p: Phase): Option<Text> {
    match p
    case Verifying(hit) => hit
    case Paid(hit, _) => hit
    case Generated(result, _) => Some(result)
    case Done(status, body, _) => if status == 200 then Some(body) else None
    case _ => None
  }

  ghost predicate SourcedFor(cfg: Config, log: Log, req: HttpRequest, value: Text) {
    HasText(req) && Sourced(cfg, log, CacheKey(cfg.hash, req.body.text, cfg.model), value)
  }

  ghost predicate JobSourced(cfg: Config, log: Log, job: Job) {
    Held(job.phase).Some? ==> SourcedFor(cfg, log, job.req, Held(job.phase).value)
  }

  ghost predicate ResponseSourced(cfg: Config, s: State, r: Response) {
    r.status == 200 ==> r.job in s.jobs && SourcedFor(cfg, s.log, s.jobs[r.job].req, r.body)
  }

  ghost predicate CacheInv(cfg: Config, s: State) {
    && (forall k :: 0 <= k < |s.log.ai| && s.log.ai[k].result.Some? ==> WellFormed(s.log.ai[k].result.value))
    && (forall key :: key in s.cache ==> Sourced(cfg, s.log, key, s.cache[key]))
    && (forall w :: w in s.writes ==> Sourced(cfg, s.log, w.0, w.1))
    && (forall id :: id in s.jobs ==> JobSourced(cfg, s.log, s.jobs[id]))
    && (forall i :: 0 <= i < |s.responses| ==> ResponseSourced(cfg, s, s.responses[i]))
  }

  lemma SourcedStays(cfg: Config, log: Log, log': Log, key: Text, value: Text)
    requires log.ai <= log'.ai && Sourced(cfg, log, key, value)
    ensures Sourced(cfg, log', key, value)
  {
    var k :| 0 <= k < |log.ai| && log.ai[k].result == Some(value) && CacheKey(cfg.hash, log.ai[k].text, cfg.model) == key;
    assert log'.ai[k] == log.ai[k];
  }

  /** The provider's log, and where new results come from. */
  lemma NewAi(cfg: Config, s: State, e: Event)
    ensures var s' := Next(cfg, s, e);
            s'.log.ai == s.log.ai ||
            (Enabled(cfg, s, e) && e.Generate? && HasText(s.jobs[e.id].req) &&
             s'.log.ai == s.log.ai + [AiCall(e.id, s.jobs[e.id].req.body.text, e.result)])
  {
    if Enabled(cfg, s, e) && e.Finish? {
      FinishFrame(cfg, s, e.id, e.stamp, e.at, e.ok);
    } else {
    }
  }

  /** A handler obtains a result from the cache or from the provider, and otherwise keeps the one it has. */
  lemma NewHeld(cfg: Config, s: State, e: Event)
    requires Enabled(cfg, s, e) && Subject(e).Some? && !e.Arrive? && Held(Next(cfg, s, e).jobs[e.id].phase).Some?
    ensures var value := Held(Next(cfg, s, e).jobs[e.id].phase).value;
            var req := s.jobs[e.id].req;
            || Held(s.jobs[e.id].phase) == Some(value)
            || (e.Begin? && HasText(req) &&
                var key := CacheKey(cfg.hash, req.body.text, cfg.model); key in s.cache && s.cache[key] == value)
            || (e.Generate? && HasText(req) && e.result == Some(value) &&
                Next(cfg, s, e).log.ai == s.log.ai + [AiCall(e.id, req.body.text, e.result)])
  {
    if e.Finish? {
      FinishFrame(cfg, s, e.id, e.stamp, e.at, e.ok);
    } else {
    }
  }

  lemma SubjectSourced(cfg: Config, s: State, e: Event)
    requires CacheInv(cfg, s) && Enabled(cfg, s, e) && Subject(e).Some?
    ensures var s' := Next(cfg, s, e); e.id in s'.jobs && JobSourced(cfg, s'.log, s'.jobs[e.id])
  {
    if !e.Arrive? {
      var s' := Next(cfg, s, e);
      NextJobExtends(cfg, s, e, e.id);
      NextLogExtends(cfg, s, e);
      if Held(s'.jobs[e.id].phase).Some? {
        var value, req := Held(s'.jobs[e.id].phase).value, s.jobs[e.id].req;
        NewHeld(cfg, s, e);
        assert JobSourced(cfg, s.log, s.jobs[e.id]);
        if e.Generate? && Held(s.jobs[e.id].phase) != Some(value) {
          assert s'.log.ai[|s.log.ai|] == AiCall(e.id, req.body.text, e.result);
        } else {
          SourcedStays(cfg, s.log, s'.log, CacheKey(cfg.hash, req.body.text, cfg.model), value);
        }
      }
    }
  }

  lemma NextJobsSourced(cfg: Config, s: State, e: Event)
    requires CacheInv(cfg, s)
    ensures forall id :: id in Next(cfg, s, e).jobs ==> JobSourced(cfg, Next(cfg, s, e).log, Next(cfg, s, e).jobs[id])
  {
    var s' := Next(cfg, s, e);
    if Enabled(cfg, s, e) {
      NextLogExtends(cfg, s, e);
      forall id | id in s'.jobs ensures JobSourced(cfg, s'.log, s'.jobs[id]) {
        if Subject(e) == Some(id) {
          SubjectSourced(cfg, s, e);
        } else {
          OthersUntouched(cfg, s, e, id);
          var job := s.jobs[id];
          assert JobSourced(cfg, s.log, job);
          if Held(job.phase).Some? {
            SourcedStays(cfg, s.log, s'.log, CacheKey(cfg.hash, job.req.body.text, cfg.model), Held(job.phase).value);
          }
        }
      }
    }
  }

  /** A pending write carries the result of the job that leaves it. */
  lemma NewWrite(cfg: Config, s: State, e: Event, w: (Text, Text))
    requires w in Next(cfg, s, e).writes && w !in s.writes
    ensures e.Finish? && e.id in s.jobs
    ensures var job := s.jobs[e.id];
            HasText(job.req) ==> Held(job.phase).Some? && w == (CacheKey(cfg.hash, job.req.body.text, cfg.model),
                                                                Seen(Marshal, Held(job.phase).value))
  {
  }

  lemma NewCached(cfg: Config, s: State, e: Event, key: Text)
    requires key in Next(cfg, s, e).cache
    ensures var value := Next(cfg, s, e).cache[key]; (key in s.cache && s.cache[key] == value) || (key, value) in s.writes
  {
    if Enabled(cfg, s, e) && e.Finish? {
      FinishFrame(cfg, s, e.id, e.stamp, e.at, e.ok);
    } else {
    }
  }

  lemma NextCacheSourced(cfg: Config, s: State, e: Event)
    requires CacheInv(cfg, s)
    ensures var s' := Next(cfg, s, e);
            && (forall key :: key in s'.cache ==> Sourced(cfg, s'.log, key, s'.cache[key]))
            && (forall w :: w in s'.writes ==> Sourced(cfg, s'.log, w.0, w.1))
  {
    var s' := Next(cfg, s, e);
    NextLogExtends(cfg, s, e);
    forall key | key in s'.cache ensures Sourced(cfg, s'.log, key, s'.cache[key]) {
      NewCached(cfg, s, e, key);
      SourcedStays(cfg, s.log, s'.log, key, s'.cache[key]);
    }
    forall w | w in s'.writes ensures Sourced(cfg, s'.log, w.0, w.1) {
      if w !in s.writes {
        NewWrite(cfg, s, e, w);
        SourcedIsSeen(cfg, s, e.id);
      }
      SourcedStays(cfg, s.log, s'.log, w.0, w.1);
    }
  }

  /** What a job holds came from the provider as valid UTF-8, so the cache reads it as it is. */
  lemma SourcedIsSeen(cfg: Config, s: State, id: nat)
    requires CacheInv(cfg, s) && id in s.jobs && Held(s.jobs[id].phase).Some?
    ensures SourcedFor(cfg, s.log, s.jobs[id].req, Seen(Marshal, Held(s.jobs[id].phase).value))
  {
    var job := s.jobs[id];
    assert JobSourced(cfg, s.log, job);
    var value := Held(job.phase).value;
    var k :| 0 <= k < |s.log.ai| && s.log.ai[k].result == Some(value) &&
             CacheKey(cfg.hash, s.log.ai[k].text, cfg.model) == CacheKey(cfg.hash, job.req.body.text, cfg.model);
    SeenSame(Marshal, value);
  }

  lemma NextResponsesSourced(cfg: Config, s: State, e: Event)
    requires CacheInv(cfg, s)
    ensures var s' := Next(cfg, s, e); forall i :: 0 <= i < |s'.responses| ==> ResponseSourced(cfg, s', s'.responses[i])
  {
    var s' := Next(cfg, s, e);
    NextExtends(cfg, s, e);
    NewResponse(cfg, s, e);
    forall i | 0 <= i < |s'.responses| ensures ResponseSourced(cfg, s', s'.responses[i]) {
      var r := s'.responses[i];
      if r.status == 200 {
        if i < |s.responses| {
          assert r == s.responses[i];
        } else {
          assert JobSourced(cfg, s.log, s.jobs[r.job]);
        }
        SourcedStays(cfg, s.log, s'.log, CacheKey(cfg.hash, s.jobs[r.job].req.body.text, cfg.model), r.body);
      }
    }
  }

  lemma {:induction false} RunCacheInv(cfg: Config, clock: int, es: seq<Event>)
    ensures CacheInv(cfg, Run(cfg, Init(cfg, clock), es))
  {
    if es != [] {
      var s, e := Run(cfg, Init(cfg, clock), es[..|es| - 1]), es[|es| - 1];
      RunCacheInv(cfg, clock, es[..|es| - 1]);
      NewAi(cfg, s, e);
      NextCacheSourced(cfg, s, e);
      NextJobsSourced(cfg, s, e);
      NextResponsesSourced(cfg, s, e);
    }
  }

  // ---------------------------------------------------------------- what a 200 carries

  /** No two different key texts of the run have the same hash. */
  ghost predicate HashesApart(cfg: Config, s: State) {
    forall k, id :: 0 <= k < |s.log.ai| && id in s.jobs && HasText(s.jobs[id].req) ==>
      var key, key' := KeyText(s.log.ai[k].text, cfg.model), KeyText(s.jobs[id].req.body.text, cfg.model);
      cfg.hash(key) == cfg.hash(key') ==> key == key'
  }

  /**
   Every 200, from the cache or not, carries a result the provider gave for the very text of its
   request, however cache writes are delayed, lost or expire, unless two texts of the run collide.
   */
  lemma CacheAgreesWithGeneration(cfg: Config, clock: int, es: seq<Event>, i: nat)
    requires i < |Run(cfg, Init(cfg, clock), es).responses| && Run(cfg, Init(cfg, clock), es).responses[i].status == 200
    requires HashesApart(cfg, Run(cfg, Init(cfg, clock), es))
    ensures var s := Run(cfg, Init(cfg, clock), es);
            var r := s.responses[i];
            && r.job in s.jobs && HasText(s.jobs[r.job].req)
            && exists k :: 0 <= k < |s.log.ai| && s.log.ai[k].text == s.jobs[r.job].req.body.text &&
                           s.log.ai[k].result == Some(r.body)
  {
    var s := Run(cfg, Init(cfg, clock), es);
    RunCacheInv(cfg, clock, es);
    var r := s.responses[i];
    assert ResponseSourced(cfg, s, r);
    var text := s.jobs[r.job].req.body.text;
    var k :| 0 <= k < |s.log.ai| && s.log.ai[k].result == Some(r.body) &&
             CacheKey(cfg.hash, s.log.ai[k].text, cfg.model) == CacheKey(cfg.hash, text, cfg.model);
    var h, h' := cfg.hash(KeyText(s.log.ai[k].text, cfg.model)), cfg.hash(KeyText(text, cfg.model));
    assert h == (KEY_PREFIX + h)[|KEY_PREFIX|..] && h' == (KEY_PREFIX + h')[|KEY_PREFIX|..];
    KeyDeterminesText(s.log.ai[k].text, text, cfg.model);
  }
}
