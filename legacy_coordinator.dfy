/** The older coordinator of src/actor.rs, which src/main.rs does not
    declare as a module. It keeps the same three maps but differs in its
    rules: joining creates a missing editing set instead of checking that
    the project exists, creating a project inserts no editing set, a segment
    may only be inserted strictly before the end, `Disconnect` keeps the
    session registered, and every helper error ends in `todo!`, a panic,
    which the handlers here report as `Panicked`. */
module Legacy {
  import Types
  import Segments

  /** The legacy error enum, with its misspelt last variant. */
  datatype ServerError = ProjectDoesNotExist | ProjectAlreadyExists | SegmentOutOfBounds | UserAlreadyoinedProject

  /** How a handler ends: normally, or in the `todo!` panic. */
  datatype Outcome = Done | Panicked

  class SmActor {
    var sessions: map<Types.SessionId, Types.Channel>
    var projects: map<Types.ProjectId, Types.Project>
    var editingSessions: map<Types.ProjectId, set<Types.ClientId>>

    /** A project is stored under its own name. */
    predicate NamesMatch()
      reads this
    {
      forall name :: name in projects ==> projects[name].name == name
    }

    /** No project has a segment, which the strict insert bound keeps so. */
    predicate NoSegments()
      reads this
    {
      forall name :: name in projects ==> projects[name].segments == []
    }

    constructor ()
      ensures sessions == map[] && projects == map[] && editingSessions == map[]
      ensures NamesMatch() && NoSegments()
    {
      sessions, projects, editingSessions := map[], map[], map[];
    }

    /** `create_project`: refuses a taken name, otherwise inserts into
        `projects` only. */
    method CreateProject(name: Types.ProjectId, seed: Types.Seed, urls: seq<Types.VideoId>)
      returns (r: Types.Result<Types.Project, ServerError>)
      modifies this`projects
      ensures old(NamesMatch()) ==> NamesMatch()
      ensures old(NoSegments()) ==> NoSegments()
      ensures name in old(projects) ==> r == Types.Err(ProjectAlreadyExists) && projects == old(projects)
      ensures name !in old(projects) ==>
                r == Types.Ok(Types.NewProject(name, seed, urls)) &&
                projects == old(projects)[name := Types.NewProject(name, seed, urls)]
    {
      if name in projects {
        return Types.Err(ProjectAlreadyExists);
      }
      var project := Types.NewProject(name, seed, urls);
      projects := projects[name := project];
      r := Types.Ok(project);
    }

    /** `user_join_project`: no existence check; a missing editing set is
        created holding just the user, a second join is refused. */
    method UserJoinProject(name: Types.ProjectId, user: Types.ClientId) returns (r: Types.Result<(), ServerError>)
      modifies this`editingSessions
      ensures name !in old(editingSessions) ==>
                r == Types.Ok(()) && editingSessions == old(editingSessions)[name := {user}]
      ensures name in old(editingSessions) && user in old(editingSessions)[name] ==>
                r == Types.Err(UserAlreadyoinedProject) && editingSessions == old(editingSessions)
      ensures name in old(editingSessions) && user !in old(editingSessions)[name] ==>
                r == Types.Ok(()) && editingSessions == old(editingSessions)[name := old(editingSessions)[name] + {user}]
    {
      if name !in editingSessions {
        editingSessions := editingSessions[name := {user}];
        return Types.Ok(());
      }
      var users := editingSessions[name];
      if user in users {
        return Types.Err(UserAlreadyoinedProject);
      }
      editingSessions := editingSessions[name := users + {user}];
      r := Types.Ok(());
    }

    /** `add_segment`: only `position < len` is accepted, so appending, and
        any insertion into an empty project, is refused. */
    method AddSegment(name: Types.ProjectId, position: Types.u16, sentence: string) returns (r: Types.Result<(), ServerError>)
      modifies this`projects
      ensures old(NamesMatch()) ==> NamesMatch()
      ensures name !in old(projects) ==> r == Types.Err(ProjectDoesNotExist) && projects == old(projects)
      ensures name in old(projects) && position >= |old(projects)[name].segments| ==>
                r == Types.Err(SegmentOutOfBounds) && projects == old(projects)
      ensures name in old(projects) && position < |old(projects)[name].segments| ==>
                r == Types.Ok(()) &&
                projects == old(projects)[name := old(projects)[name].(segments :=
                  Segments.InsertAt(old(projects)[name].segments, position, Types.NewSegment(sentence)))]
    {
      if name !in projects {
        return Types.Err(ProjectDoesNotExist);
      }
      var p := projects[name];
      if position >= |p.segments| {
        return Types.Err(SegmentOutOfBounds);
      }
      projects := projects[name := p.(segments := Segments.InsertAt(p.segments, position, Types.NewSegment(sentence)))];
      r := Types.Ok(());
    }

    /** `modify_segment_sentence`: `get_mut` finds only `position < len`. */
    method ModifySegmentSentence(name: Types.ProjectId, position: Types.u16, sentence: string)
      returns (r: Types.Result<(), ServerError>)
      modifies this`projects
      ensures old(NamesMatch()) ==> NamesMatch()
      ensures name !in old(projects) ==> r == Types.Err(ProjectDoesNotExist) && projects == old(projects)
      ensures name in old(projects) && position >= |old(projects)[name].segments| ==>
                r == Types.Err(SegmentOutOfBounds) && projects == old(projects)
      ensures name in old(projects) && position < |old(projects)[name].segments| ==>
                r == Types.Ok(()) &&
                projects == old(projects)[name := old(projects)[name].(segments :=
                  Segments.WithSentence(old(projects)[name].segments, position, sentence))]
    {
      if name !in projects {
        return Types.Err(ProjectDoesNotExist);
      }
      var p := projects[name];
      if position >= |p.segments| {
        return Types.Err(SegmentOutOfBounds);
      }
      projects := projects[name := p.(segments := Segments.WithSentence(p.segments, position, sentence))];
      r := Types.Ok(());
    }

    /** `modify_segment_combo_index`: `get_mut` finds only `position < len`. */
    method ModifySegmentComboIndex(name: Types.ProjectId, position: Types.u16, index: Types.u16)
      returns (r: Types.Result<(), ServerError>)
      modifies this`projects
      ensures old(NamesMatch()) ==> NamesMatch()
      ensures name !in old(projects) ==> r == Types.Err(ProjectDoesNotExist) && projects == old(projects)
      ensures name in old(projects) && position >= |old(projects)[name].segments| ==>
                r == Types.Err(SegmentOutOfBounds) && projects == old(projects)
      ensures name in old(projects) && position < |old(projects)[name].segments| ==>
                r == Types.Ok(()) &&
                projects == old(projects)[name := old(projects)[name].(segments :=
                  Segments.WithComboIndex(old(projects)[name].segments, position, index))]
    {
      if name !in projects {
        return Types.Err(ProjectDoesNotExist);
      }
      var p := projects[name];
      if position >= |p.segments| {
        return Types.Err(SegmentOutOfBounds);
      }
      projects := projects[name := p.(segments := Segments.WithComboIndex(p.segments, position, index))];
      r := Types.Ok(());
    }

    /** `remove_segment`: `position < len`, later segments shift down. */
    method RemoveSegment(name: Types.ProjectId, position: Types.u16) returns (r: Types.Result<(), ServerError>)
      modifies this`projects
      ensures old(NamesMatch()) ==> NamesMatch()
      ensures old(NoSegments()) ==> NoSegments()
      ensures name !in old(projects) ==> r == Types.Err(ProjectDoesNotExist) && projects == old(projects)
      ensures name in old(projects) && position >= |old(projects)[name].segments| ==>
                r == Types.Err(SegmentOutOfBounds) && projects == old(projects)
      ensures name in old(projects) && position < |old(projects)[name].segments| ==>
                r == Types.Ok(()) &&
                projects == old(projects)[name := old(projects)[name].(segments :=
                  Segments.RemoveAt(old(projects)[name].segments, position))]
    {
      if name !in projects {
        return Types.Err(ProjectDoesNotExist);
      }
      var p := projects[name];
      if position >= |p.segments| {
        return Types.Err(SegmentOutOfBounds);
      }
      projects := projects[name := p.(segments := Segments.RemoveAt(p.segments, position))];
      r := Types.Ok(());
    }

    /** `Connect`: registers the channel under the id the generator drew. */
    method HandleConnect(id: Types.SessionId, channel: Types.Channel) returns (r: Types.SessionId)
      modifies this`sessions
      ensures r == id && sessions == old(sessions)[id := channel]
    {
      sessions := sessions[id := channel];
      r := id;
    }

    /** `Disconnect`: removes the id from every editing set; the session
        stays registered. */
    method HandleDisconnect(id: Types.ClientId)
      modifies this`editingSessions
      ensures editingSessions == map name | name in old(editingSessions) :: old(editingSessions)[name] - {id}
      ensures forall name :: name in editingSessions ==> id !in editingSessions[name]
    {
      ghost var before := editingSessions;
      var remaining := editingSessions.Keys;
      while remaining != {}
        invariant remaining <= before.Keys && editingSessions.Keys == before.Keys
        invariant forall name :: name in remaining ==> editingSessions[name] == before[name]
        invariant forall name :: name in before && name !in remaining ==>
                    editingSessions[name] == before[name] - {id}
        decreases remaining
      {
        var name :| name in remaining;
        editingSessions := editingSessions[name := editingSessions[name] - {id}];
        remaining := remaining - {name};
      }
    }

    /** `CreateProject`: creates, then joins the creator; either error
        panics. Joining fails when the creator had already joined the name
        before the project existed. */
    method HandleCreateProject(id: Types.ClientId, name: Types.ProjectId, seed: Types.Seed, urls: seq<Types.VideoId>)
      returns (o: Outcome)
      modifies this`projects, this`editingSessions
      ensures old(NamesMatch()) ==> NamesMatch()
      ensures old(NoSegments()) ==> NoSegments()
      ensures o == Panicked <==>
                name in old(projects) ||
                (name in old(editingSessions) && id in old(editingSessions)[name])
      ensures name in old(projects) ==> projects == old(projects) && editingSessions == old(editingSessions)
      ensures o == Panicked ==> editingSessions == old(editingSessions)
      ensures name !in old(projects) ==> projects == old(projects)[name := Types.NewProject(name, seed, urls)]
      ensures o == Done && name !in old(editingSessions) ==> editingSessions == old(editingSessions)[name := {id}]
      ensures o == Done && name in old(editingSessions) ==>
                editingSessions == old(editingSessions)[name := old(editingSessions)[name] + {id}]
    {
      var created := CreateProject(name, seed, urls);
      if created.Err? {
        return Panicked;
      }
      var joined := UserJoinProject(name, id);
      if joined.Err? {
        return Panicked;
      }
      o := Done;
    }

    /** `JoinProject`: joins whether or not the project exists; a second
        join panics. */
    method HandleJoinProject(id: Types.ClientId, name: Types.ProjectId) returns (o: Outcome)
      modifies this`editingSessions
      ensures o == Panicked <==> name in old(editingSessions) && id in old(editingSessions)[name]
      ensures o == Panicked ==> editingSessions == old(editingSessions)
      ensures o == Done && name !in old(editingSessions) ==> editingSessions == old(editingSessions)[name := {id}]
      ensures o == Done && name in old(editingSessions) ==>
                editingSessions == old(editingSessions)[name := old(editingSessions)[name] + {id}]
    {
      var joined := UserJoinProject(name, id);
      if joined.Err? {
        return Panicked;
      }
      o := Done;
    }

    /** `CreateSegment`: any refusal panics. */
    method HandleCreateSegment(name: Types.ProjectId, position: Types.u16, sentence: string) returns (o: Outcome)
      modifies this`projects
      ensures old(NamesMatch()) ==> NamesMatch()
      ensures o == Panicked <==> name !in old(projects) || position >= |old(projects)[name].segments|
      ensures o == Panicked ==> projects == old(projects)
      ensures o == Done ==>
                projects == old(projects)[name := old(projects)[name].(segments :=
                  Segments.InsertAt(old(projects)[name].segments, position, Types.NewSegment(sentence)))]
      ensures old(NoSegments()) ==> o == Panicked && NoSegments()
    {
      var r := AddSegment(name, position, sentence);
      o := if r.Err? then Panicked else Done;
    }

    /** `ModifySegmentSentence`: any refusal panics. */
    method HandleModifySegmentSentence(name: Types.ProjectId, position: Types.u16, sentence: string) returns (o: Outcome)
      modifies this`projects
      ensures old(NamesMatch()) ==> NamesMatch()
      ensures o == Panicked <==> name !in old(projects) || position >= |old(projects)[name].segments|
      ensures o == Panicked ==> projects == old(projects)
      ensures o == Done ==>
                projects == old(projects)[name := old(projects)[name].(segments :=
                  Segments.WithSentence(old(projects)[name].segments, position, sentence))]
      ensures old(NoSegments()) ==> o == Panicked && NoSegments()
    {
      var r := ModifySegmentSentence(name, position, sentence);
      o := if r.Err? then Panicked else Done;
    }

    /** `ModifySegmentComboIndex`: any refusal panics. */
    method HandleModifySegmentComboIndex(name: Types.ProjectId, position: Types.u16, index: Types.u16) returns (o: Outcome)
      modifies this`projects
      ensures old(NamesMatch()) ==> NamesMatch()
      ensures o == Panicked <==> name !in old(projects) || position >= |old(projects)[name].segments|
      ensures o == Panicked ==> projects == old(projects)
      ensures o == Done ==>
                projects == old(projects)[name := old(projects)[name].(segments :=
                  Segments.WithComboIndex(old(projects)[name].segments, position, index))]
      ensures old(NoSegments()) ==> o == Panicked && NoSegments()
    {
      var r := ModifySegmentComboIndex(name, position, index);
      o := if r.Err? then Panicked else Done;
    }

    /** `RemoveSegment`: any refusal panics. */
    method HandleRemoveSegment(name: Types.ProjectId, position: Types.u16) returns (o: Outcome)
      modifies this`projects
      ensures old(NamesMatch()) ==> NamesMatch()
      ensures o == Panicked <==> name !in old(projects) || position >= |old(projects)[name].segments|
      ensures o == Panicked ==> projects == old(projects)
      ensures o == Done ==>
                projects == old(projects)[name := old(projects)[name].(segments :=
                  Segments.RemoveAt(old(projects)[name].segments, position))]
      ensures old(NoSegments()) ==> o == Panicked && NoSegments()
    {
      var r := RemoveSegment(name, position);
      o := if r.Err? then Panicked else Done;
    }
  }

  /** A fresh project cannot receive its first segment: inserting at row 0
      of an empty project is refused, so the handler panics. */
  method FirstSegmentPanics(id: Types.ClientId, name: Types.ProjectId, sentence: string)
    returns (create: Outcome, insert: Outcome)
    ensures create == Done && insert == Panicked
  {
    var actor := new SmActor();
    create := actor.HandleCreateProject(id, name, "seed", []);
    insert := actor.HandleCreateSegment(name, 0, sentence);
  }

  /** Joining a name before a project exists succeeds, and creating that
      project afterwards then panics when the creator is joined again. */
  method JoinBeforeCreatePanics(id: Types.ClientId, name: Types.ProjectId)
    returns (join: Outcome, create: Outcome, created: bool)
    ensures join == Done && create == Panicked && created
  {
    var actor := new SmActor();
    join := actor.HandleJoinProject(id, name);
    create := actor.HandleCreateProject(id, name, "seed", []);
    created := name in actor.projects;
  }
}
