/**
 * Dependency injection for one instantiation: resolving a module's declared
 * tool names through the toolbox into the positional argument list, and, in
 * debug mode, exposing the resolved tools on the instance by name.
 */
module Injection {
  import opened Values

  /** `s` read from its last element to its first. */
  function Reversed<T>(s: seq<T>): (r: seq<T>)
  {
    if s == [] then [] else Reversed(s[1..]) + [s[0]]
  }

  /** Element `j` of the reversal is element `|s| - 1 - j` of the original. */
  lemma {:induction false} ReversedAt<T>(s: seq<T>, j: nat)
    requires j < |s|
    ensures |Reversed(s)| == |s| && Reversed(s)[j] == s[|s| - 1 - j]
  {
    if j < |s| - 1 {
      ReversedAt(s[1..], j);
    } else {
      ReversedLength(s[1..]);
    }
  }

  lemma {:induction false} ReversedLength<T>(s: seq<T>)
    ensures |Reversed(s)| == |s|
  {
    if s != [] {
      ReversedLength(s[1..]);
    }
  }

  /** The toolbox requests of one instantiation, in the order they are issued. */
  function Requests(tools: seq<string>): (r: seq<Event>)
    ensures |r| == |tools|
    ensures forall j :: 0 <= j < |tools| ==> r[j] == ToolRequested(tools[j])
  {
    if tools == [] then [] else [ToolRequested(tools[0])] + Requests(tools[1..])
  }

  /**
   * The `while ( nToolIndex-- )` loop with `aTools.unshift`: walks the tool
   * names from the last to the first, requests each one from the toolbox and
   * puts it in front of the list built so far. The list ends in declaration
   * order; `requested` is the order in which the toolbox was asked.
   */
  method BuildTools(names: seq<string>, request: string -> Tool)
    returns (tools: seq<Tool>, ghost requested: seq<string>)
    ensures |tools| == |names|
    ensures forall i :: 0 <= i < |names| ==> tools[i] == request(names[i])
    ensures requested == Reversed(names)
    ensures |requested| == |names|
    ensures forall j :: 0 <= j < |names| ==> requested[j] == names[|names| - 1 - j]
  {
    var k := |names|;
    tools, requested := [], [];
    while k > 0
      invariant 0 <= k <= |names|
      invariant |tools| == |names| - k
      invariant forall i :: 0 <= i < |tools| ==> tools[i] == request(names[k + i])
      invariant requested == Reversed(names[k..])
    {
      k := k - 1;
      tools := [request(names[k])] + tools;
      assert names[k..][1..] == names[k + 1..];
      requested := requested + [names[k]];
    }
    assert names[0..] == names;
    ReversedLength(names);
    forall j | 0 <= j < |names|
      ensures requested[j] == names[|names| - 1 - j]
    {
      ReversedAt(names, j);
    }
  }

  /**
   * The debug-mode loop that writes `__tools__[aToolsNames[i]] = aTools[i]`,
   * again from the last index to the first, onto the object's existing
   * `__tools__` (`own`). A name declared twice keeps the tool of its first
   * declaration, since that write comes last.
   */
  method ExposeTools(own: map<string, Tool>, names: seq<string>, tools: seq<Tool>)
    returns (exposed: map<string, Tool>)
    requires |tools| == |names|
    ensures forall key :: key in exposed <==> key in own || key in names
    ensures forall key :: key in own && key !in names ==> exposed[key] == own[key]
    ensures forall i :: 0 <= i < |names| && names[i] !in names[..i] ==> exposed[names[i]] == tools[i]
  {
    exposed := own;
    var k := |names|;
    while k > 0
      invariant 0 <= k <= |names|
      invariant forall key :: key in exposed <==> key in own || key in names[k..]
      invariant forall key :: key in own && key !in names[k..] ==> exposed[key] == own[key]
      invariant forall i :: k <= i < |names| && names[i] !in names[k..i] ==> exposed[names[i]] == tools[i]
    {
      k := k - 1;
      assert names[k..] == [names[k]] + names[k + 1..];
      forall i | k + 1 <= i < |names|
        ensures names[k..i] == [names[k]] + names[k + 1..i]
      {
      }
      exposed := exposed[names[k] := tools[k]];
    }
    assert names[0..] == names;
    forall i | 0 <= i < |names|
      ensures names[..i] == names[0..i]
    {
    }
  }

  /**
   * When every tool is the toolbox's answer for its own name, first-wins
   * exposure gives every declared name exactly its own tool, duplicates
   * included.
   */
  lemma {:induction false} ExposedMatchesRequests(
    exposed: map<string, Tool>, names: seq<string>, tools: seq<Tool>,
    request: string -> Tool, i: nat)
    requires |tools| == |names| && i < |names|
    requires forall k :: 0 <= k < |names| ==> tools[k] == request(names[k])
    requires forall key :: key in names ==> key in exposed
    requires forall k :: 0 <= k < |names| && names[k] !in names[..k] ==> exposed[names[k]] == tools[k]
    ensures exposed[names[i]] == tools[i]
  {
    if names[i] in names[..i] {
      var j :| 0 <= j < i && names[..i][j] == names[i];
      ExposedMatchesRequests(exposed, names, tools, request, j);
    }
  }
}
