/**
 The backward capture of make_graphed_callables: gradients are padded to the input surface,
 collected from the last callable to the first, and the two lists are reversed at the end.
 torch.autograd.grad is a parameter: it returns one gradient per input that requires one.
 */
module GraphedGrads {
  import opened Wrappers

  datatype Tensor = Tensor(id: int, requiresGrad: bool)

  /** `tuple(t for t in ts if t.requires_grad)` */
  function Requiring(ts: seq<Tensor>): seq<Tensor> {
    if ts == [] then [] else
      Requiring(ts[..|ts|-1]) + if ts[|ts|-1].requiresGrad then [ts[|ts|-1]] else []
  }

  /** The gradient slots of a surface: where each input's gradient stands in `grad_inputs`. */
  function SlotOf(ts: seq<Tensor>, i: nat): nat
    requires i <= |ts|
  {
    |Requiring(ts[..i])|
  }

  lemma {:induction false} SlotHoldsInput(ts: seq<Tensor>, i: nat)
    requires i < |ts| && ts[i].requiresGrad
    ensures SlotOf(ts, i) < |Requiring(ts)| && Requiring(ts)[SlotOf(ts, i)] == ts[i]
  {
    var pre := ts[..|ts|-1];
    if i < |ts| - 1 {
      SlotHoldsInput(pre, i);
      assert pre[..i] == ts[..i];
    } else {
      assert ts[..i] == pre;
    }
  }

  /** A gradient, and the input it belongs to. */
  datatype Grad = Grad(of: Tensor, value: int)

  /** What torch.autograd.grad promises for these inputs; an unused input may get None. */
  ghost predicate GradsFor(inputs: seq<Tensor>, grads: seq<Option<Grad>>) {
    |grads| == |inputs| && forall k :: 0 <= k < |grads| && grads[k].Some? ==> grads[k].value.of == inputs[k]
  }

  /** Padded gradients: each stands at the position of its own input, and is absent where none is needed. */
  ghost predicate Padded(surface: seq<Tensor>, grads: Option<seq<Option<Grad>>>, padded: seq<Option<Grad>>) {
    && |padded| == |surface|
    && forall i :: 0 <= i < |surface| ==>
         && (padded[i].Some? ==> surface[i].requiresGrad && padded[i].value.of == surface[i])
         && (grads.None? || !surface[i].requiresGrad ==> padded[i] == None)
         && (grads.Some? && surface[i].requiresGrad ==> SlotOf(surface, i) < |grads.value| && padded[i] == grads.value[SlotOf(surface, i)])
  }

  /** The padding loop; `grad_inputs[grad_idx]` is always in range. */
  method Pad(surface: seq<Tensor>, grads: Option<seq<Option<Grad>>>) returns (padded: seq<Option<Grad>>)
    requires grads.Some? ==> GradsFor(Requiring(surface), grads.value)
    ensures Padded(surface, grads, padded)
  {
    padded := [];
    var gradIdx := 0;
    for i := 0 to |surface|
      invariant |padded| == i && (grads.Some? ==> gradIdx == SlotOf(surface, i))
      invariant forall k :: 0 <= k < i ==>
        && (padded[k].Some? ==> surface[k].requiresGrad && padded[k].value.of == surface[k])
        && (grads.None? || !surface[k].requiresGrad ==> padded[k] == None)
        && (grads.Some? && surface[k].requiresGrad ==> SlotOf(surface, k) < |grads.value| && padded[k] == grads.value[SlotOf(surface, k)])
    {
      assert surface[..i+1][..i] == surface[..i];
      if surface[i].requiresGrad && grads.Some? {
        SlotHoldsInput(surface, i);
        padded := padded + [grads.value[gradIdx]];
        gradIdx := gradIdx + 1;
      } else {
        padded := padded + [None];
      }
    }
  }

  function Reversed<T>(s: seq<T>): (r: seq<T>)
    ensures |r| == |s| && forall i :: 0 <= i < |s| ==> r[i] == s[|s| - 1 - i]
  {
    if s == [] then [] else [s[|s|-1]] + Reversed(s[..|s|-1])
  }

  /** One callable: its input surface, its outputs, and what autograd returns for it. */
  datatype Callable = Callable(surface: seq<Tensor>, outputs: seq<Tensor>, autograd: seq<Option<Grad>>)

  /** No output requires a gradient: nothing is captured. */
  function GradInputs(c: Callable): Option<seq<Option<Grad>>> {
    if Requiring(c.outputs) == [] then None else Some(c.autograd)
  }

  /** `tuple(empty_like(o) if o.requires_grad else None for o in outputs)` */
  function GradOutputs(outputs: seq<Tensor>): (r: seq<Option<Tensor>>)
    ensures |r| == |outputs| && forall i :: 0 <= i < |r| ==> r[i] == if outputs[i].requiresGrad then Some(outputs[i]) else None
  {
    seq(|outputs|, i requires 0 <= i < |outputs| => if outputs[i].requiresGrad then Some(outputs[i]) else None)
  }

  /** The static gradients of one callable. */
  ghost predicate Captured(c: Callable, outputs: seq<Option<Tensor>>, inputs: seq<Option<Grad>>) {
    outputs == GradOutputs(c.outputs) && Padded(c.surface, GradInputs(c), inputs)
  }

  /** The capture loop over the callables in reverse order, and the two reversals: entry i belongs to callable i. */
  method CaptureBackward(callables: seq<Callable>)
    returns (gradOutputs: seq<seq<Option<Tensor>>>, gradInputs: seq<seq<Option<Grad>>>)
    requires forall c :: c in callables ==> GradsFor(Requiring(c.surface), c.autograd)
    ensures |gradOutputs| == |gradInputs| == |callables|
    ensures forall i :: 0 <= i < |callables| ==> Captured(callables[i], gradOutputs[i], gradInputs[i])
  {
    gradOutputs, gradInputs := [], [];
    var backwards := Reversed(callables);
    for i := 0 to |backwards|
      invariant |gradOutputs| == |gradInputs| == i
      invariant forall k :: 0 <= k < i ==> Captured(backwards[k], gradOutputs[k], gradInputs[k])
    {
      var c := backwards[i];
      assert c == callables[|callables| - 1 - i];
      var padded := Pad(c.surface, GradInputs(c));
      gradOutputs := gradOutputs + [GradOutputs(c.outputs)];
      gradInputs := gradInputs + [padded];
    }
    gradOutputs, gradInputs := Reversed(gradOutputs), Reversed(gradInputs);
  }

  /** The inputs among the first `i` that need a gradient. */
  function NeedBefore(ts: seq<Tensor>, i: nat): nat
    requires i <= |ts|
  {
    if i == 0 then 0 else NeedBefore(ts, i - 1) + if ts[i-1].requiresGrad then 1 else 0
  }

  lemma {:induction false} SlotIsCount(ts: seq<Tensor>, i: nat)
    requires i <= |ts|
    ensures SlotOf(ts, i) == NeedBefore(ts, i)
  {
    if i == 0 {
      assert ts[..0] == [];
    } else {
      SlotIsCount(ts, i - 1);
      assert ts[..i][..i-1] == ts[..i-1];
    }
  }

  lemma {:induction false} RequiringNone(ts: seq<Tensor>)
    ensures Requiring(ts) == [] <==> forall i :: 0 <= i < |ts| ==> !ts[i].requiresGrad
  {
    if ts != [] { RequiringNone(ts[..|ts|-1]); }
  }

  /**
   What is captured for one callable, position by position: nothing if no output needs a gradient;
   else an input that needs one gets the gradient whose number is that of the inputs before it that
   need one. An output that needs a gradient has its own buffer.
   */
  lemma CapturedMeaning(c: Callable, outputs: seq<Option<Tensor>>, inputs: seq<Option<Grad>>)
    requires Captured(c, outputs, inputs)
    ensures |outputs| == |c.outputs| && forall i :: 0 <= i < |outputs| ==>
      outputs[i] == if c.outputs[i].requiresGrad then Some(c.outputs[i]) else None
    ensures |inputs| == |c.surface| && forall i :: 0 <= i < |inputs| ==>
      if c.surface[i].requiresGrad && exists o :: 0 <= o < |c.outputs| && c.outputs[o].requiresGrad
      then NeedBefore(c.surface, i) < |c.autograd| && inputs[i] == c.autograd[NeedBefore(c.surface, i)]
      else inputs[i] == None
  {
    RequiringNone(c.outputs);
    forall i | 0 <= i < |inputs| ensures SlotOf(c.surface, i) == NeedBefore(c.surface, i) { SlotIsCount(c.surface, i); }
  }
}
