/**
 * The retry control of `download_file_or_image`. The network and the disk
 * are replaced by what each attempt met once it got past the existence
 * check, given as a function of the attempt number; the recursion of
 * `download_file_or_image` is a spec function and the method runs the
 * same control as a loop with an attempt counter and an "output file
 * exists" flag.
 */
module Retry {
  import opened PyStr

  /** What one attempt met once past the existence check. */
  datatype Attempt =
    | NotFound            // the server answered 404
    | ErrorBeforeOpen     // the request, the status check or the length header failed; nothing was written
    | ErrorAfterOpen      // writing failed after the output file had been opened
    | Complete(size: nat) // the body was written out; `size` bytes on disk

  /** A call's return value, the requests it made, and whether the output file exists afterwards. */
  datatype Outcome = Outcome(ok: bool, fetches: nat, present: bool)

  /** 4 MiB, the size below which a finished file counts as truncated. */
  const MinSize: nat := 4 * 1024 * 1024

  /** The size check, which tests the singular suffix `.safetensor`. */
  predicate TooSmall(path: string, size: nat) {
    EndsWith(path, ".safetensor") && size < MinSize
  }

  /** The attempts a call starting at `retry` may make: itself and one per retry left. */
  function Budget(retry: nat, maxRetries: int): (n: nat)
    ensures n >= 1
    ensures retry + n - 1 == if retry < maxRetries then maxRetries else retry
  {
    if retry < maxRetries then maxRetries - retry + 1 else 1
  }

  function AddFetch(o: Outcome): Outcome {
    o.(fetches := o.fetches + 1)
  }

  /** One call `download_file_or_image(url, path, retry, maxRetries)`, recursion and all. */
  function Download(path: string, present: bool, retry: nat, maxRetries: int, outcome: nat -> Attempt): (r: Outcome)
    ensures r.fetches <= Budget(retry, maxRetries)
    ensures r.ok ==> r.present
    ensures present ==> r.present
    decreases if retry < maxRetries then maxRetries - retry else 0
  {
    if present then Outcome(false, 0, true)
    else
      match outcome(retry)
      case NotFound => Outcome(false, 1, false)
      case ErrorBeforeOpen =>
        if retry < maxRetries then AddFetch(Download(path, false, retry + 1, maxRetries, outcome))
        else Outcome(false, 1, false)
      case ErrorAfterOpen =>
        if retry < maxRetries then AddFetch(Download(path, true, retry + 1, maxRetries, outcome))
        else Outcome(false, 1, true)
      case Complete(size) =>
        if TooSmall(path, size) then
          if retry < maxRetries then AddFetch(Download(path, true, retry + 1, maxRetries, outcome))
          else Outcome(false, 1, true)
        else Outcome(true, 1, true)
  }

  /**
   * The download as a loop. From attempt 0, never more than
   * `max(maxRetries, 0) + 1` requests; an existing file means no request
   * and `False`; a 404 on the first attempt means one request and `False`.
   */
  method DownloadFileOrImage(path: string, present0: bool, maxRetries: int, outcome: nat -> Attempt)
    returns (ok: bool, fetches: nat, present: bool)
    ensures Outcome(ok, fetches, present) == Download(path, present0, 0, maxRetries, outcome)
    ensures fetches <= (if maxRetries > 0 then maxRetries else 0) + 1
    ensures present0 ==> !ok && fetches == 0
    ensures !present0 && outcome(0) == NotFound ==> !ok && fetches == 1 && !present
  {
    ok, fetches, present := false, 0, present0;
    var retry: nat := 0;
    var done := false;
    while !done
      invariant done ==> Outcome(ok, fetches, present) == Download(path, present0, 0, maxRetries, outcome)
      invariant !done ==> Download(path, present0, 0, maxRetries, outcome)
                          == Download(path, present, retry, maxRetries, outcome).(fetches := Download(path, present, retry, maxRetries, outcome).fetches + fetches)
      decreases !done, if retry < maxRetries then maxRetries - retry else 0
    {
      if present {
        ok, done := false, true;
      } else {
        fetches := fetches + 1;
        match outcome(retry)
        case NotFound =>
          ok, done := false, true;
        case ErrorBeforeOpen =>
          if retry < maxRetries {
            retry := retry + 1;
          } else {
            ok, done := false, true;
          }
        case ErrorAfterOpen =>
          present := true;
          if retry < maxRetries {
            retry := retry + 1;
          } else {
            ok, done := false, true;
          }
        case Complete(size) =>
          present := true;
          if !TooSmall(path, size) {
            ok, done := true, true;
          } else if retry < maxRetries {
            retry := retry + 1;
          } else {
            ok, done := false, true;
          }
      }
    }
  }

  /** A 404 ends the call at whatever attempt it comes: one request, `False`, no file. */
  lemma NotFoundStops(path: string, retry: nat, maxRetries: int, outcome: nat -> Attempt)
    requires outcome(retry) == NotFound
    ensures Download(path, false, retry, maxRetries, outcome) == Outcome(false, 1, false)
  {
  }

  /**
   * Failures that wrote nothing on attempts `retry` to `retry + n - 1`, all
   * within the retry budget, then a 404: `n + 1` requests, `False`, no file.
   */
  lemma {:induction false} NotFoundAfterErrors(path: string, retry: nat, n: nat, maxRetries: int, outcome: nat -> Attempt)
    requires retry + n <= maxRetries
    requires forall i :: retry <= i < retry + n ==> outcome(i) == ErrorBeforeOpen
    requires outcome(retry + n) == NotFound
    ensures Download(path, false, retry, maxRetries, outcome) == Outcome(false, n + 1, false)
    decreases n
  {
    if n > 0 {
      NotFoundAfterErrors(path, retry + 1, n - 1, maxRetries, outcome);
    }
  }

  /**
   * Once an attempt has opened the output file, the retry it asks for stops
   * at the existence check: the call returns `False` after that one request.
   */
  lemma RetryAfterWriteStops(path: string, retry: nat, maxRetries: int, outcome: nat -> Attempt)
    requires outcome(retry).ErrorAfterOpen? || (outcome(retry).Complete? && TooSmall(path, outcome(retry).size))
    ensures Download(path, false, retry, maxRetries, outcome) == Outcome(false, 1, true)
  {
    if retry < maxRetries {
      assert Download(path, true, retry + 1, maxRetries, outcome) == Outcome(false, 0, true);
    }
  }

  /** The size check never fires for `.safetensors` files: that name does not end in `.safetensor`. */
  lemma SafetensorsNeverTooSmall(path: string, size: nat)
    requires EndsWith(path, ".safetensors")
    ensures !TooSmall(path, size)
  {
    assert path[|path| - 1] == ".safetensors"[11];
  }

  /** So a finished `.safetensors` download is reported done, however small. */
  lemma SafetensorsCompleteSucceeds(path: string, retry: nat, maxRetries: int, outcome: nat -> Attempt)
    requires EndsWith(path, ".safetensors") && outcome(retry).Complete?
    ensures Download(path, false, retry, maxRetries, outcome) == Outcome(true, 1, true)
  {
    SafetensorsNeverTooSmall(path, outcome(retry).size);
  }

  /**
   * Attempt `k` is the one that succeeds: every attempt from `retry` before
   * it failed before opening the file, it is within the retry budget, and it
   * finished a file the size check accepts.
   */
  ghost predicate SucceedsAt(path: string, retry: nat, maxRetries: int, outcome: nat -> Attempt, k: nat) {
    && retry <= k && (k == retry || k <= maxRetries)
    && (forall j :: retry <= j < k ==> outcome(j) == ErrorBeforeOpen)
    && outcome(k).Complete? && !TooSmall(path, outcome(k).size)
  }

  /** The call succeeds exactly when some attempt is the one that succeeds. */
  lemma {:induction false} DownloadSucceeds(path: string, retry: nat, maxRetries: int, outcome: nat -> Attempt)
    ensures Download(path, false, retry, maxRetries, outcome).ok
            <==> exists k: nat :: SucceedsAt(path, retry, maxRetries, outcome, k)
    decreases if retry < maxRetries then maxRetries - retry else 0
  {
    var r := Download(path, false, retry, maxRetries, outcome);
    if r.ok {
      if outcome(retry) == ErrorBeforeOpen {
        DownloadSucceeds(path, retry + 1, maxRetries, outcome);
        var k: nat :| SucceedsAt(path, retry + 1, maxRetries, outcome, k);
        assert SucceedsAt(path, retry, maxRetries, outcome, k);
      } else {
        assert !Download(path, true, retry + 1, maxRetries, outcome).ok;
        assert SucceedsAt(path, retry, maxRetries, outcome, retry);
      }
    }
    if exists k: nat :: SucceedsAt(path, retry, maxRetries, outcome, k) {
      var k: nat :| SucceedsAt(path, retry, maxRetries, outcome, k);
      if k > retry {
        assert outcome(retry) == ErrorBeforeOpen;
        assert SucceedsAt(path, retry + 1, maxRetries, outcome, k);
        DownloadSucceeds(path, retry + 1, maxRetries, outcome);
      }
    }
  }
}
