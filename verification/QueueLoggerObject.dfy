/** The logger object of sources/queue_logger/queue_logger.h: `write` hands a task to the pool, and the body
    of that task, run by a worker, writes the message to the logger's stream.  Like the pool's, the methods
    are the regions of `write`; a task that is refused in any of them is deleted. */
module QueueLoggerObject {
  import opened Common
  import Q = TsQueue
  import opened TaskProcessor
  import opened TaskProcessorInvariant
  import TaskProcessorPool
  import opened QueueLogger

  class Logger {
    const taskProcessor: TaskProcessorPool.Pool
    var messages: map<Task, Message>
    var stream: seq<Message>

    ghost predicate Valid()
      reads this, taskProcessor, taskProcessor.taskQueue
    {
      taskProcessor.Valid() && Consistent(taskProcessor.Abs(), messages, stream)
    }

    /** Worker w holds a task of this logger. */
    ghost predicate HoldsMessage(w: Tid)
      reads this, taskProcessor
    {
      w in taskProcessor.pc && HasTask(taskProcessor.pc[w]) && taskProcessor.pc[w].task in messages
    }

    ghost function MessageOf(w: Tid): Message
      requires HoldsMessage(w)
      reads this, taskProcessor
    {
      messages[taskProcessor.pc[w].task]
    }

    constructor (taskProcessor: TaskProcessorPool.Pool)
      requires taskProcessor.Valid()
      ensures Valid() && this.taskProcessor == taskProcessor && stream == []
    {
      this.taskProcessor := taskProcessor;
      messages, stream := map[], [];
      new;
      NothingLogged(taskProcessor.ran);
    }

    // ----- write -----

    /** Creating the task, and the check in `add_task`. */
    method Write(t: Tid, task: Task, level: nat, text: string) returns (refused: bool)
      requires Valid() && Enabled(taskProcessor.Abs(), AddTask(t, task))
      modifies this, taskProcessor
      ensures Valid()
      ensures taskProcessor.Abs() == Step(old(taskProcessor.Abs()), AddTask(t, task))
      ensures refused <==> old(taskProcessor.stopping)
      ensures messages == if refused then old(messages) else old(messages)[task := Message(level, text)]
      ensures stream == old(stream)
    {
      hide Invariant, Enabled, Step;
      StartedFresh(taskProcessor.Abs(), t, task);
      RanAreAccepted(taskProcessor.Abs());
      refused := taskProcessor.AddTask(t, task);
      if !refused {
        LinesOfOthers(messages, task, Message(level, text), taskProcessor.ran);
        messages := messages[task := Message(level, text)];
      }
    }

    /** The unlocked check in `push`. */
    method WritePush(t: Tid) returns (refused: bool)
      requires Valid() && Enabled(taskProcessor.Abs(), AddPush(t)) && taskProcessor.pc[t].task in messages
      modifies this, taskProcessor, taskProcessor.taskQueue
      ensures Valid()
      ensures taskProcessor.Abs() == Step(old(taskProcessor.Abs()), AddPush(t))
      ensures refused <==> old(taskProcessor.taskQueue.stopping)
      ensures messages == if refused then old(messages) - {old(taskProcessor.pc[t].task)} else old(messages)
      ensures stream == old(stream)
    {
      hide Invariant, Step;
      var task := taskProcessor.pc[t].task;
      OtherStepsKeep(taskProcessor.Abs(), AddPush(t), messages, stream);
      RefusedNow(taskProcessor.Abs(), AddPush(t));
      var result := taskProcessor.AddTaskPush(t);
      refused := result == Some(false);
      if refused {
        Discard(task);
      }
    }

    /** A later region of `push`, which returns e, or NoReturn while it is under way. */
    method WriteOn(t: Tid, wake: Tid) returns (e: Q.Event)
      requires Valid() && Enabled(taskProcessor.Abs(), InQueue(t, wake))
      requires taskProcessor.pc[t].Pushing? && taskProcessor.pc[t].task in messages
      modifies this, taskProcessor, taskProcessor.taskQueue
      ensures Valid()
      ensures taskProcessor.Abs() == Step(old(taskProcessor.Abs()), InQueue(t, wake))
      ensures TaskProcessorPool.Answers(old(taskProcessor.taskQueue.Abs()), Q.Advance(t, wake), e)
      ensures messages == if e == Q.PushReturned(false) then old(messages) - {old(taskProcessor.pc[t].task)}
                          else old(messages)
      ensures stream == old(stream)
    {
      hide Invariant, Step, Q.Step;
      var task := taskProcessor.pc[t].task;
      OtherStepsKeep(taskProcessor.Abs(), InQueue(t, wake), messages, stream);
      RefusedNow(taskProcessor.Abs(), InQueue(t, wake));
      e := taskProcessor.RunInQueue(t, wake);
      if e == Q.PushReturned(false) {
        Discard(task);
      }
    }

    /** The deletion of a refused task. */
    method Discard(task: Task)
      requires Valid() && task in taskProcessor.rejected
      modifies this`messages
      ensures Valid() && messages == old(messages) - {task}
    {
      hide Invariant;
      RanAreAccepted(taskProcessor.Abs());
      LinesOfOthers(messages, task, Message(0, ""), taskProcessor.ran);
      messages := messages - {task};
    }

    // ----- real_write -----

    /** `queue_logger_task::operator()` run by worker w. */
    method RunLoggerTask(w: Tid)
      requires HoldsMessage(w) && Enabled(taskProcessor.Abs(), RunBody(w)) && Valid()
      modifies this, taskProcessor
      ensures Valid()
      ensures taskProcessor.Abs() == Step(old(taskProcessor.Abs()), RunBody(w))
      ensures stream == old(stream) + [old(MessageOf(w))] && messages == old(messages)
    {
      hide Invariant;
      var task := taskProcessor.pc[w].task;
      taskProcessor.RunTask(w);
      assert taskProcessor.ran[..|taskProcessor.ran| - 1] == old(taskProcessor.ran);
      RealWrite(messages[task]);
    }

    /** `real_write`. */
    method RealWrite(message: Message)
      modifies this`stream
      ensures stream == old(stream) + [message]
    {
      stream := stream + [message];
    }
  }

  lemma {:induction false} NothingLogged(tasks: seq<Task>)
    ensures Lines(map[], tasks) == []
  {
    if tasks != [] {
      NothingLogged(tasks[..|tasks| - 1]);
    }
  }

  /** An `add_task` changes no task's history but its own. */
  lemma StartedFresh(s: State, t: Tid, task: Task)
    requires Enabled(s, AddTask(t, task))
    ensures task !in s.created && Step(s, AddTask(t, task)).created == s.created + {task}
    ensures Step(s, AddTask(t, task)).ran == s.ran
  {
  }

  /** A step in which `push` refuses the task records it as rejected. */
  lemma RefusedNow(s: State, a: Action)
    requires Enabled(s, a) && (a.AddPush? || (a.InQueue? && s.pc[a.t].Pushing?))
    ensures a.AddPush? && s.q.stopping ==> s.pc[a.t].task in Step(s, a).rejected
    ensures a.InQueue? && Q.Step(s.q, Q.Advance(a.t, a.wake)).event == Q.PushReturned(false) ==>
              s.pc[a.t].task in Step(s, a).rejected
  {
  }
}
