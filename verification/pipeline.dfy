/** The two plugin loops of the converter: `beforeConvert` hooks folded over
    the Markdown source, and `afterConvert` hooks called after a successful
    render (src/converter.ts:41-48, 301-308). */
module Pipeline {
  import opened Wrappers
  import opened Types

  /** One iteration of the `beforeConvert` loop: a plugin without the hook
      leaves the content as it is. */
  function BeforeStep(content: string, plugin: ConverterPlugin, settings: Settings): string {
    match plugin.beforeConvert
    case Some(hook) => hook(content, settings)
    case None => content
  }

  /** The `beforeConvert` hooks as a left fold in declaration order. */
  function ApplyBeforeConvert(content: string, plugins: seq<ConverterPlugin>, settings: Settings): string
    decreases |plugins|
  {
    if plugins == [] then content
    else ApplyBeforeConvert(BeforeStep(content, plugins[0], settings), plugins[1..], settings)
  }

  /** Folding over a concatenation folds over the second list starting from
      the result of the first: later plugins see earlier plugins' output. */
  lemma {:induction false} ApplyBeforeConvertAppend(
    content: string, a: seq<ConverterPlugin>, b: seq<ConverterPlugin>, settings: Settings)
    ensures ApplyBeforeConvert(content, a + b, settings)
         == ApplyBeforeConvert(ApplyBeforeConvert(content, a, settings), b, settings)
    decreases |a|
  {
    if a == [] {
      assert a + b == b;
    } else {
      assert (a + b)[0] == a[0];
      assert (a + b)[1..] == a[1..] + b;
      ApplyBeforeConvertAppend(BeforeStep(content, a[0], settings), a[1..], b, settings);
    }
  }

  /** The plugins that implement `beforeConvert`, in declaration order. */
  function WithBeforeHook(plugins: seq<ConverterPlugin>): (hooked: seq<ConverterPlugin>)
    ensures forall i :: 0 <= i < |hooked| ==> hooked[i].beforeConvert.Some? && hooked[i] in plugins
    decreases |plugins|
  {
    if plugins == [] then []
    else (if plugins[0].beforeConvert.Some? then [plugins[0]] else []) + WithBeforeHook(plugins[1..])
  }

  /** Plugins without the hook are skipped: the fold over all plugins equals
      the fold over the hooked ones alone. */
  lemma {:induction false} ApplyBeforeConvertSkipsHookless(
    content: string, plugins: seq<ConverterPlugin>, settings: Settings)
    ensures ApplyBeforeConvert(content, plugins, settings)
         == ApplyBeforeConvert(content, WithBeforeHook(plugins), settings)
    decreases |plugins|
  {
    if plugins != [] {
      var p := plugins[0];
      var rest := WithBeforeHook(plugins[1..]);
      ApplyBeforeConvertSkipsHookless(BeforeStep(content, p, settings), plugins[1..], settings);
      if p.beforeConvert.Some? {
        assert WithBeforeHook(plugins) == [p] + rest;
        assert ([p] + rest)[0] == p;
        assert ([p] + rest)[1..] == rest;
      } else {
        assert WithBeforeHook(plugins) == rest;
      }
    }
  }

  /** With no `beforeConvert` hook present the content is unchanged. */
  lemma {:induction false} ApplyBeforeConvertNoHooks(content: string, plugins: seq<ConverterPlugin>, settings: Settings)
    requires forall p :: p in plugins ==> p.beforeConvert.None?
    ensures ApplyBeforeConvert(content, plugins, settings) == content
  {
    ApplyBeforeConvertSkipsHookless(content, plugins, settings);
  }

  /** Two hooked plugins `[a, b]` give `b` applied to `a`'s output. */
  lemma ApplyBeforeConvertTwo(content: string, a: ConverterPlugin, b: ConverterPlugin, settings: Settings)
    requires a.beforeConvert.Some? && b.beforeConvert.Some?
    ensures ApplyBeforeConvert(content, [a, b], settings)
         == b.beforeConvert.value(a.beforeConvert.value(content, settings), settings)
  {
    var first := a.beforeConvert.value(content, settings);
    assert [a, b][1..] == [b];
    assert [b][1..] == [];
    assert ApplyBeforeConvert(content, [a, b], settings) == ApplyBeforeConvert(first, [b], settings);
    assert ApplyBeforeConvert(first, [b], settings)
        == ApplyBeforeConvert(b.beforeConvert.value(first, settings), [], settings);
  }

  /** The `for (const plugin of options.plugins)` loop of `beforeConvert`. */
  method RunBeforeConvert(content: string, plugins: seq<ConverterPlugin>, settings: Settings)
    returns (result: string)
    ensures result == ApplyBeforeConvert(content, plugins, settings)
  {
    result := content;
    var i := 0;
    while i < |plugins|
      invariant 0 <= i <= |plugins|
      invariant result == ApplyBeforeConvert(content, plugins[..i], settings)
    {
      var plugin := plugins[i];
      assert plugins[..i + 1] == plugins[..i] + [plugin];
      ApplyBeforeConvertAppend(content, plugins[..i], [plugin], settings);
      assert [plugin][1..] == [];
      if plugin.beforeConvert.Some? {
        result := plugin.beforeConvert.value(result, settings);
      }
      i := i + 1;
    }
    assert plugins[..i] == plugins;
  }

  /** One `afterConvert` invocation: the index of the plugin and the argument. */
  datatype AfterCall = AfterCall(plugin: nat, args: AfterConvertArgs)

  /** The `afterConvert` calls made from plugin `start` on, in order. */
  function AfterConvertCallsFrom(plugins: seq<ConverterPlugin>, start: nat, args: AfterConvertArgs)
    : seq<AfterCall>
    requires start <= |plugins|
    decreases |plugins| - start
  {
    if start == |plugins| then []
    else
      var rest := AfterConvertCallsFrom(plugins, start + 1, args);
      if plugins[start].afterConvert.Some? then [AfterCall(start, args)] + rest else rest
  }

  /** From `start` on, the calls name exactly the hooked plugins, in
      increasing order, each with the same argument. */
  lemma {:induction false} AfterConvertCallsFromSpec(plugins: seq<ConverterPlugin>, start: nat, args: AfterConvertArgs)
    requires start <= |plugins|
    ensures forall k :: 0 <= k < |AfterConvertCallsFrom(plugins, start, args)| ==>
      start <= AfterConvertCallsFrom(plugins, start, args)[k].plugin < |plugins|
    ensures forall k :: 0 <= k < |AfterConvertCallsFrom(plugins, start, args)| ==>
      var call := AfterConvertCallsFrom(plugins, start, args)[k];
      call.plugin < |plugins| && plugins[call.plugin].afterConvert.Some? && call.args == args
    ensures forall k, l :: 0 <= k < l < |AfterConvertCallsFrom(plugins, start, args)| ==>
      AfterConvertCallsFrom(plugins, start, args)[k].plugin < AfterConvertCallsFrom(plugins, start, args)[l].plugin
    ensures forall i :: start <= i < |plugins| && plugins[i].afterConvert.Some? ==>
      AfterCall(i, args) in AfterConvertCallsFrom(plugins, start, args)
    decreases |plugins| - start
  {
    if start < |plugins| {
      AfterConvertCallsFromSpec(plugins, start + 1, args);
      var rest := AfterConvertCallsFrom(plugins, start + 1, args);
      var calls := AfterConvertCallsFrom(plugins, start, args);
      if plugins[start].afterConvert.Some? {
        assert calls == [AfterCall(start, args)] + rest;
        assert forall k :: 1 <= k < |calls| ==> calls[k] == rest[k - 1];
      } else {
        assert calls == rest;
      }
    }
  }

  /** Every plugin with an `afterConvert` hook is called once, in plugin
      order, with the same `{ outputPath, options }`; no other is called. */
  function AfterConvertCalls(plugins: seq<ConverterPlugin>, args: AfterConvertArgs): (calls: seq<AfterCall>)
    ensures forall k :: 0 <= k < |calls| ==>
      && calls[k].plugin < |plugins|
      && plugins[calls[k].plugin].afterConvert.Some?
      && calls[k].args == args
    ensures forall k, l :: 0 <= k < l < |calls| ==> calls[k].plugin < calls[l].plugin
    ensures forall i :: 0 <= i < |plugins| && plugins[i].afterConvert.Some? ==> AfterCall(i, args) in calls
  {
    var calls := AfterConvertCallsFrom(plugins, 0, args);
    AfterConvertCallsFromSpec(plugins, 0, args);
    calls
  }

  /** The `for (const plugin of options.plugins)` loop of `afterConvert`:
      each hooked plugin is called, in order, with the same argument. */
  method RunAfterConvert(plugins: seq<ConverterPlugin>, args: AfterConvertArgs)
    returns (calls: seq<AfterCall>)
    ensures calls == AfterConvertCalls(plugins, args)
  {
    calls := [];
    var i := 0;
    while i < |plugins|
      invariant 0 <= i <= |plugins|
      invariant calls + AfterConvertCallsFrom(plugins, i, args) == AfterConvertCallsFrom(plugins, 0, args)
    {
      var rest := AfterConvertCallsFrom(plugins, i + 1, args);
      if plugins[i].afterConvert.Some? {
        var call := AfterCall(i, args);
        assert AfterConvertCallsFrom(plugins, i, args) == [call] + rest;
        assert calls + ([call] + rest) == (calls + [call]) + rest;
        calls := calls + [call];
      } else {
        assert AfterConvertCallsFrom(plugins, i, args) == rest;
      }
      i := i + 1;
    }
    assert calls + [] == calls;
    assert AfterConvertCalls(plugins, args) == AfterConvertCallsFrom(plugins, 0, args);
  }
}
