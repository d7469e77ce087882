/** `UserRegisteredCommandHandler`: one registration fans out into an SMS job and an email job. */
module Handlers {
  import opened Wrappers
  import opened Jobs
  import opened Commands
  import opened CommandQueue
  import opened Pipeline

  /** The fixed parts of the welcome texts, which surround the user's full name. */
  const SmsGreeting := "Welcome "
  const SmsClosing := "! Your account is ready."
  const EmailSubject := "Welcome!"
  const EmailGreeting := "Hi "
  const EmailClosing := ", welcome to our platform."

  /** The welcome SMS for a registration, tracked by job `jobId`. */
  function WelcomeSms(c: Command, jobId: JobId): Command
    requires c.UserRegistered?
  {
    SendSms(jobId, c.phoneNumber, SmsGreeting + c.fullName + SmsClosing)
  }

  /** The welcome email for a registration, tracked by job `jobId`. */
  function WelcomeEmail(c: Command, jobId: JobId): Command
    requires c.UserRegistered?
  {
    SendEmail(jobId, c.email, EmailSubject, EmailGreeting + c.fullName + EmailClosing)
  }

  /** The state after handling `c`: the SMS child is submitted first, then the email child. */
  function FannedOut(s: System, c: Command, now: int): System
    requires c.UserRegistered?
  {
    var afterSms := Submitted(s, TypeName(SendSmsCommand), now, WelcomeSms(c, s.nextId));
    Submitted(afterSms, TypeName(SendEmailCommand), now, WelcomeEmail(c, afterSms.nextId))
  }

  /**
   * Handling a registration adds exactly two fresh Queued jobs, named after the SMS and email
   * command types, leaves every existing job (the parent included) as it was, and appends the
   * SMS command and then the email command, each carrying its own child's id.
   */
  lemma FanOutEffect(s: System, c: Command, now: int)
    requires WellFormed(s) && c.UserRegistered?
    ensures var r := FannedOut(s, c, now);
      var sms := s.nextId;
      var email := s.nextId + 1;
      && sms !in s.jobs && email !in s.jobs
      && r.nextId == s.nextId + 2
      && r.jobs.Keys == s.jobs.Keys + {sms, email}
      && (forall k | k in s.jobs :: r.jobs[k] == s.jobs[k])
      && r.jobs[sms].status == Queued && r.jobs[sms].commandName == "SendSmsCommand"
      && r.jobs[email].status == Queued && r.jobs[email].commandName == "SendEmailCommand"
      && r.jobs[sms].createdAt == now && r.jobs[email].createdAt == now
      && r.queue == s.queue + [
        SendSms(sms, c.phoneNumber, "Welcome " + c.fullName + "! Your account is ready."),
        SendEmail(email, c.email, "Welcome!", "Hi " + c.fullName + ", welcome to our platform.")]
  {
    var afterSms := Submitted(s, TypeName(SendSmsCommand), now, WelcomeSms(c, s.nextId));
    assert WellFormed(afterSms);
    assert s.nextId + 1 !in s.jobs;
  }

  /** Handling a registration only adds jobs and only appends to the queue. */
  lemma FanOutOnlyAppends(s: System, c: Command, now: int)
    requires WellFormed(s) && c.UserRegistered?
    ensures var r := FannedOut(s, c, now);
      && WellFormed(r)
      && s.jobs.Keys <= r.jobs.Keys
      && (forall k | k in s.jobs :: r.jobs[k] == s.jobs[k])
      && |s.queue| <= |r.queue| && r.queue[..|s.queue|] == s.queue
  {
    var afterSms := Submitted(s, TypeName(SendSmsCommand), now, WelcomeSms(c, s.nextId));
    var r := FannedOut(s, c, now);
    assert r.queue == s.queue + [WelcomeSms(c, s.nextId), WelcomeEmail(c, afterSms.nextId)];
  }

  /** Handling a registration keeps the queue and the job store in step. */
  lemma FanOutPreservesConsistent(s: System, c: Command, now: int)
    requires Consistent(s) && c.UserRegistered?
    ensures Consistent(FannedOut(s, c, now))
  {
    var afterSms := Submitted(s, TypeName(SendSmsCommand), now, WelcomeSms(c, s.nextId));
    SubmitPreservesConsistent(s, TypeName(SendSmsCommand), now, WelcomeSms(c, s.nextId));
    SubmitPreservesConsistent(afterSms, TypeName(SendEmailCommand), now, WelcomeEmail(c, afterSms.nextId));
  }

  /** `HandleAsync`: the two create-then-enqueue steps on the shared singletons. */
  method HandleUserRegistered(c: Command, store: JobStore, queue: InMemoryCommandQueue, now: int)
    requires c.UserRegistered? && store.Valid()
    modifies store, queue
    ensures store.Valid()
    ensures Snapshot(store, queue) == FannedOut(old(Snapshot(store, queue)), c, now)
  {
    var smsJob := store.Create(TypeName(SendSmsCommand), now);
    queue.Enqueue(WelcomeSms(c, smsJob.id));
    var emailJob := store.Create(TypeName(SendEmailCommand), now);
    queue.Enqueue(WelcomeEmail(c, emailJob.id));
  }
}
