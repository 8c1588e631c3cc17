/**
 The newest messages that fit a token limit (BaseClient.getMessagesWithinTokenLimit).
 */
module TokenWindow {
  import opened Options
  import opened Sequences

  datatype Message = Message(tokenCount: int, body: string)

  /** The system message already sitting at index 0 of the input. */
  datatype Instructions = Instructions(tokenCount: Field<int>)

  /** Every reply is primed with a label that costs three tokens. */
  const PRIMING := 3

  function Cost(messages: seq<Message>): int {
    if messages == [] then 0 else messages[0].tokenCount + Cost(messages[1..])
  }

  function Newest(messages: seq<Message>, k: nat): seq<Message>
    requires k <= |messages|
  {
    messages[|messages| - k..]
  }

  lemma NewestStep(messages: seq<Message>, k: nat)
    requires k < |messages|
    ensures Newest(messages, k + 1) == [messages[|messages| - k - 1]] + Newest(messages, k)
    ensures Cost(Newest(messages, k + 1)) == messages[|messages| - k - 1].tokenCount + Cost(Newest(messages, k))
  {
    assert Newest(messages, k + 1)[1..] == Newest(messages, k);
  }

  /** The newest `k` messages can be taken one by one: room is left before each, and none is overdrawn. */
  ghost predicate Fits(messages: seq<Message>, budget: int, k: nat) {
    && k <= |messages|
    && (forall j :: 0 <= j < k ==> PRIMING + Cost(Newest(messages, j)) < budget)
    && (forall j :: 0 < j <= k ==> PRIMING + Cost(Newest(messages, j)) <= budget)
  }

  lemma OneMoreFits(messages: seq<Message>, budget: int, k: nat)
    requires Fits(messages, budget, k) && k < |messages| && PRIMING + Cost(Newest(messages, k)) < budget
    ensures Newest(messages, k + 1) == [messages[|messages| - k - 1]] + Newest(messages, k)
    ensures Cost(Newest(messages, k + 1)) == messages[|messages| - k - 1].tokenCount + Cost(Newest(messages, k))
    ensures PRIMING + Cost(Newest(messages, k + 1)) <= budget ==> Fits(messages, budget, k + 1)
  {
    NewestStep(messages, k);
  }

  /** How many of the newest messages fit, leaving the first `first` messages alone. */
  ghost predicate IsWindow(messages: seq<Message>, first: nat, budget: int, k: nat)
    requires first <= |messages|
  {
    && k <= |messages| - first && Fits(messages, budget, k)
    && (k < |messages| - first ==>
          PRIMING + Cost(Newest(messages, k)) >= budget || PRIMING + Cost(Newest(messages, k + 1)) > budget)
  }

  function InstructionTokens(instructions: Option<Instructions>): int {
    if instructions.Some? && instructions.value.tokenCount.Present? then instructions.value.tokenCount.value else 0
  }

  function Leading(instructions: Option<Instructions>): nat {
    if instructions.Some? then 1 else 0
  }

  lemma Reassemble(input: seq<Message>, first: nat, k: nat)
    requires first <= |input| - k
    ensures input == input[..first] + input[first..|input| - k] + Newest(input, k)
    ensures first == 1 ==> input[..first] == [input[0]] && input[..|input| - k][1..] == input[1..|input| - k]
  {
  }

  lemma PopMoves(input: seq<Message>, context: seq<Message>, n: nat)
    requires 0 < n <= |input| && |context| == |input| - n && Reverse(context) == Newest(input, |context|)
    ensures input[..n][..n - 1] == input[..n - 1]
    ensures Reverse(context + [input[n - 1]]) == Newest(input, |context| + 1)
  {
    ReverseAppend(context, input[n - 1]);
    NewestStep(input, |context|);
  }

  /** How the popping loop stands: `context` newest first, `messages` what is left, the count that of `context`. */
  ghost predicate Taken(input: seq<Message>, budget: int, first: nat, context: seq<Message>, messages: seq<Message>,
                        count: int) {
    && first <= |messages| == |input| - |context|
    && messages == input[..|messages|] && Reverse(context) == Newest(input, |context|)
    && count == PRIMING + Cost(Newest(input, |context|)) && Fits(input, budget, |context|)
  }

  lemma TakesOneMore(input: seq<Message>, budget: int, first: nat, context: seq<Message>, messages: seq<Message>,
                     count: int)
    requires Taken(input, budget, first, context, messages, count) && |messages| > first && count < budget
    requires count + messages[|messages| - 1].tokenCount <= budget
    ensures var popped := messages[|messages| - 1];
            Taken(input, budget, first, context + [popped], messages[..|messages| - 1], count + popped.tokenCount)
  {
    OneMoreFits(input, budget, |context|);
    PopMoves(input, context, |messages|);
  }

  /** Where it stops, nothing is left to take, no room is left, or the next message does not fit. */
  lemma StopsAtWindow(input: seq<Message>, budget: int, first: nat, context: seq<Message>, messages: seq<Message>,
                      count: int)
    requires Taken(input, budget, first, context, messages, count)
    requires |messages| == first || count >= budget || count + messages[|messages| - 1].tokenCount > budget
    ensures IsWindow(input, first, budget, |context|)
  {
    if |messages| > first {
      NewestStep(input, |context|);
    }
  }

  /** The popping loop: `context` comes out newest first, `messages` is what is left. */
  method TakeNewest(input: seq<Message>, remaining: int, hasInstructions: bool)
    returns (context: seq<Message>, messages: seq<Message>, currentTokenCount: int)
    requires hasInstructions ==> input != []
    ensures |context| <= |input| - (if hasInstructions then 1 else 0)
    ensures messages == input[..|input| - |context|] && Reverse(context) == Newest(input, |context|)
    ensures currentTokenCount == PRIMING + Cost(Newest(input, |context|))
    ensures IsWindow(input, if hasInstructions then 1 else 0, remaining, |context|)
  {
    context, messages, currentTokenCount := [], input, PRIMING;
    ghost var first := if hasInstructions then 1 else 0;
    assert Taken(input, remaining, first, context, messages, currentTokenCount);
    if currentTokenCount < remaining {
      while |messages| > 0 && currentTokenCount < remaining
        invariant Taken(input, remaining, first, context, messages, currentTokenCount)
        decreases |messages|
      {
        if |messages| == 1 && hasInstructions {
          break;
        }
        var popped := messages[|messages| - 1];
        if currentTokenCount + popped.tokenCount <= remaining {
          TakesOneMore(input, remaining, first, context, messages, currentTokenCount);
          messages := messages[..|messages| - 1];
          context := context + [popped];
          currentTokenCount := currentTokenCount + popped.tokenCount;
        } else {
          break;
        }
      }
    }
    StopsAtWindow(input, remaining, first, context, messages, currentTokenCount);
  }

  method GetMessagesWithinTokenLimit(input: seq<Message>, maxContextTokens: int, instructions: Option<Instructions>)
    returns (context: seq<Message>, remainingContextTokens: int, messagesToRefine: seq<Message>)
    requires instructions.Some? ==> input != []
    ensures var first := Leading(instructions);
            var k := |context| - first;
            && 0 <= k <= |input| - first
            && context == input[..first] + Newest(input, k)
            && messagesToRefine == input[first..|input| - k]
            && input == input[..first] + messagesToRefine + Newest(input, k)
            && remainingContextTokens + PRIMING + InstructionTokens(instructions) + Cost(Newest(input, k)) ==
                 maxContextTokens
            && IsWindow(input, first, maxContextTokens - InstructionTokens(instructions), k)
  {
    var remaining := maxContextTokens - InstructionTokens(instructions);
    var messages, currentTokenCount;
    context, messages, currentTokenCount := TakeNewest(input, remaining, instructions.Some?);
    Reassemble(input, Leading(instructions), |context|);
    if instructions.Some? {
      ReverseAppend(context, input[0]);
      context := context + [input[0]];
      messages := messages[1..];
    }
    remainingContextTokens := remaining - currentTokenCount;
    messagesToRefine := messages;
    context := Reverse(context);
  }

  // ---- what the window means

  lemma WindowIsUnique(messages: seq<Message>, first: nat, budget: int, k: nat, l: nat)
    requires first <= |messages|
    requires IsWindow(messages, first, budget, k) && IsWindow(messages, first, budget, l)
    ensures k == l
  {
  }

  /** Room is never overdrawn once the priming tokens fit. */
  lemma RemainingIsNonNegative(messages: seq<Message>, first: nat, budget: int, k: nat)
    requires first <= |messages| && IsWindow(messages, first, budget, k)
    ensures budget >= PRIMING ==> budget - PRIMING - Cost(Newest(messages, k)) >= 0
    ensures budget < PRIMING ==> k == 0
  {
    if k > 0 {
      assert PRIMING + Cost(Newest(messages, 0)) < budget;
    }
  }

  /** A larger limit only extends the window, whatever the token counts. */
  lemma LargerLimitExtends(messages: seq<Message>, first: nat, small: int, large: int, k: nat, l: nat)
    requires first <= |messages| && small <= large
    requires IsWindow(messages, first, small, k) && IsWindow(messages, first, large, l)
    ensures k <= l
  {
  }

  /** No longer run of newest messages fits. */
  ghost predicate IsLongest(messages: seq<Message>, first: nat, budget: int, k: nat)
    requires first <= |messages|
  {
    forall j :: k < j <= |messages| - first ==> PRIMING + Cost(Newest(messages, j)) > budget
  }

  lemma {:induction false} CostGrows(messages: seq<Message>, j: nat, k: nat)
    requires j <= k <= |messages|
    requires forall m :: m in messages ==> m.tokenCount >= 0
    ensures Cost(Newest(messages, j)) <= Cost(Newest(messages, k))
    decreases k - j
  {
    if j < k {
      NewestStep(messages, k - 1);
      CostGrows(messages, j, k - 1);
    }
  }

  /**
   With no negative counts, the window is the longest run that
   fits, except in one case: the budget is used up exactly and the next older message costs nothing.
   */
  lemma WindowIsLongest(messages: seq<Message>, first: nat, budget: int, k: nat)
    requires first <= |messages| && IsWindow(messages, first, budget, k)
    requires forall m :: m in messages ==> m.tokenCount >= 0
    ensures IsLongest(messages, first, budget, k) <==>
            !(k < |messages| - first
              && PRIMING + Cost(Newest(messages, k)) == budget
              && messages[|messages| - k - 1].tokenCount == 0)
  {
    RemainingIsNonNegative(messages, first, budget, k);
    if k < |messages| - first {
      NewestStep(messages, k);
      if messages[|messages| - k - 1].tokenCount == 0 && PRIMING + Cost(Newest(messages, k)) == budget {
        assert !IsLongest(messages, first, budget, k);
      } else {
        forall j | k < j <= |messages| - first
          ensures PRIMING + Cost(Newest(messages, j)) > budget
        {
          assert messages[|messages| - k - 1] in messages;
          CostGrows(messages, k + 1, j);
        }
      }
    }
  }

  /** The exception happens: an exactly full window leaves a free message behind. */
  lemma FreeMessageLeftBehind()
    ensures var messages := [Message(0, "free"), Message(4, "last")];
            IsWindow(messages, 0, 7, 1) && !IsLongest(messages, 0, 7, 1)
  {
    var messages := [Message(0, "free"), Message(4, "last")];
    NewestStep(messages, 0);
    NewestStep(messages, 1);
    assert Cost(Newest(messages, 1)) == 4 && Cost(Newest(messages, 2)) == 4;
  }
}
