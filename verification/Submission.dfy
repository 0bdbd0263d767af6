/** How POST /jobs is answered (handleSubmitJob in pkg/api/handlers.go). */
module Submission {
  import opened Options
  import opened Strings
  import opened JobLifecycle
  import opened Executor
  import opened ExecutorRuns
  import opened Registry
  import LogBuffer

  /** A body as decoded, None when it does not decode.  `others` are the errors of the checks
      on the fields other than the image. */
  datatype Body = Body(image: string, others: seq<ValidationError>)

  predicate Refused(body: Option<Body>, whitelist: seq<string>, t: Text) {
    body.Some? && Denied(body.value.image, whitelist, t)
  }

  predicate Valid(body: Option<Body>, whitelist: seq<string>, t: Text) {
    && body.Some? && !Refused(body, whitelist, t)
    && 0 < |body.value.image| <= MAX_IMAGE_LENGTH && body.value.others == []
  }

  /** The handler asks the executor whether it is ready, and then submits; other callers can
      come in between, so the executor is seen in two states. */
  method HandleSubmitJob(body: Option<Body>, whitelist: seq<string>, t: Text, asked: World, submitted: World)
    returns (status: int)
    requires body.Some? ==> forall e | e in body.value.others :: e.field != "image"
    ensures status in {202, 400, 403, 409}
    ensures status == 403 <==> Refused(body, whitelist, t)
    ensures status == 400 <==> !Refused(body, whitelist, t) && !Valid(body, whitelist, t)
    ensures status == 202 <==> Valid(body, whitelist, t) && IsReady(asked) && IsReady(submitted)
  {
    if body.None? {
      return 400;
    }
    var errs := ValidateJobRequest(body.value.image, whitelist, body.value.others, t);
    if |errs| > 0 {
      for k := 0 to |errs|
        invariant forall j | 0 <= j < k :: !IsRefusal(errs[j])
      {
        if errs[k].field == "image" && Occurs(WHITELIST, errs[k].message) {
          ghost var own := |errs| - |body.value.others|;
          assert forall j | own <= j < |errs| :: errs[j] == errs[own..][j - own];
          return 403;
        }
      }
      return 400;
    }
    if !IsReady(asked) {
      return 409;
    }
    if !IsReady(submitted) {
      return 409;
    }
    return 202;
  }

  ghost predicate SomeUnfinished(w: World) {
    exists k | 0 <= k < |w.jobs| :: !w.jobs[k].done
  }

  /** MAIN RESULT.  What 202 and 409 mean for a valid request whose handler asks at moment m of
      a run and, if told that the executor is ready, submits at moment n.  Accepted: one job
      more, the current one, with the identifier drawn, all earlier ones done.  Turned away:
      some job is unfinished; and if the executor had been ready when asked, another
      submission was accepted in between and this one changes nothing. */
  lemma SubmissionAnswered(tr: seq<World>, acts: seq<Action>, cfg: Config, m: nat, n: nat, id: string, req: Request)
    requires Behavior(tr, acts, cfg) && m <= n < |tr|
    requires IsReady(tr[m]) ==> n < |acts| && acts[n] == Submit(id, req)
    ensures !IsReady(tr[m]) ==> SomeUnfinished(tr[m])
    ensures IsReady(tr[m]) && IsReady(tr[n]) ==>
              && tr[n + 1].jobs == tr[n].jobs + [NewJob(id, req)]
              && Lookup(tr[n + 1], id) == Some(|tr[n].jobs|) && !SomeUnfinished(tr[n])
              && var j := tr[n + 1].jobs[|tr[n].jobs|];
                 && j.id == id && j.req == req && !j.done && j.result == None && j.calls == []
                 && j.log == LogBuffer.INITIAL
    ensures IsReady(tr[m]) && !IsReady(tr[n]) ==>
              && tr[n + 1] == tr[n] && SomeUnfinished(tr[n])
              && exists i | m <= i < n :: IsAccepted(tr[i], acts[i])
  {
    OneJobAtATime(tr, acts, cfg, m);
    OneJobAtATime(tr, acts, cfg, n);
    if IsReady(tr[m]) {
      assert Moves(tr[n], acts[n], tr[n + 1], cfg);
      if !IsReady(tr[n]) {
        RefusedOnlyByRace(tr, acts, cfg, m, n);
      }
    }
  }
}
