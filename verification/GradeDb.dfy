/** The records of the grade database whose fields the program rewrites in place. */
module GradeDb {
  import opened Frequencies

  /** The fields of a student that the three sort orders look at. */
  datatype Record = Record(id: string, surname: string, name: string, composite: real)

  /** The two intrusive lists a student is threaded on. */
  datatype Link = Next | CNext

  datatype Npolicy = RAW | LINEAR | QUANTILE | SCALE

  datatype Ngroup = BYCLASS | BYSECTION

  class Assignment {
    const name: string
    const npolicy: Npolicy
    const ngroup: Ngroup
    const mean: real    // mean and deviation to normalize to
    const stddev: real
    const scale: real   // maximum to scale to
    var max: real       // declared maximum

    constructor (name: string, npolicy: Npolicy, ngroup: Ngroup, mean: real, stddev: real, scale: real, max: real)
    {
      this.name, this.npolicy, this.ngroup := name, npolicy, ngroup;
      this.mean, this.stddev, this.scale, this.max := mean, stddev, scale, max;
    }
  }

  /** A bucket of a frequency table, threaded in increasing order of score. */
  class Freqs {
    var score: real
    var count: nat
    var numless: nat
    var numlesseq: nat
    var next: Freqs?

    constructor (score: real, next: Freqs?)
      ensures Value() == Bucket(score, 1, 0, 0) && this.next == next
    {
      this.score, count, numless, numlesseq, this.next := score, 1, 0, 0, next;
    }

    function Value(): Bucket
      reads this
    {
      Bucket(score, count, numless, numlesseq)
    }
  }

  /** The statistics of one assignment, for the class or for one section. */
  class Stats {
    const asgt: Assignment
    ghost const row: nat  // the position of the assignment in the course
    ghost const col: int  // the position of the section, -1 in a class record
    var valid: nat
    var tallied: nat
    var sum: real
    var sumsq: real
    var min: real
    var max: real
    var mean: real
    var stddev: real
    var freqs: Freqs?  // first bucket of the table
    ghost var nodes: seq<Freqs>
    ghost var table: Table
    var sstats: seq<Stats>  // of a class: the statistics of its sections

    constructor (asgt: Assignment, ghost row: nat, ghost col: int)
      ensures this.asgt == asgt && this.row == row && this.col == col && Empty() && sstats == []
    {
      this.asgt, this.row, this.col := asgt, row, col;
      valid, tallied, sum, sumsq, sstats := 0, 0, 0.0, 0.0, [];
      freqs, nodes, table := null, [], [];
      min, max, mean, stddev := 0.0, 0.0, 0.0, 0.0;
    }

    ghost predicate Empty()
      reads this
    {
      && valid == 0 && tallied == 0 && sum == 0.0 && sumsq == 0.0 && min == 0.0 && max == 0.0
      && freqs == null && nodes == [] && table == []
    }
  }

  class Score {
    const asgt: Assignment
    const grade: real
    const counted: bool  // valid, or invalid with USERAW substitution
    var cstats: Stats?
    var sstats: Stats?
    ghost const home: nat  // the position in the course of the section its student is in

    constructor (asgt: Assignment, grade: real, counted: bool, ghost home: nat)
    {
      this.asgt, this.grade, this.counted, this.home := asgt, grade, counted, home;
      cstats, sstats := null, null;
    }
  }

  class Student {
    const id: string
    const surname: string
    const name: string
    const composite: real
    const rawscores: seq<Score>
    var next: Student?   // next student in the section roster
    var cnext: Student?  // next student in the course roster

    constructor (id: string, surname: string, name: string, composite: real, rawscores: seq<Score>)
    {
      this.id, this.surname, this.name, this.composite, this.rawscores := id, surname, name, composite, rawscores;
      next, cnext := null, null;
    }

    function Rec(): Record
    {
      Record(id, surname, name, composite)
    }

    function Get(link: Link): Student?
      reads this`next, this`cnext
    {
      if link.Next? then next else cnext
    }

    method Set(link: Link, n: Student?)
      modifies this`next, this`cnext
      ensures Get(link) == n
      ensures link.Next? ==> cnext == old(cnext)
      ensures link.CNext? ==> next == old(next)
    {
      if link.Next? { next := n; } else { cnext := n; }
    }
  }

  class Section {
    var roster: Student?  // first student of the section, threaded on next
    ghost var nodes: seq<Student>
    ghost const members: set<Student>

    constructor (ghost members: set<Student>)
      ensures Valid() && nodes == [] && this.members == members
    {
      roster, nodes := null, [];
      this.members := members;
    }

    ghost predicate Valid()
      reads this, members
    {
      && (forall i | 0 <= i < |nodes| :: nodes[i] in members)
      && Chain(roster, Next, nodes)
    }
  }

  class Course {
    const assignments: seq<Assignment>
    const sections: seq<Section>
    var roster: Student?  // first student of the course, threaded on cnext
    ghost const members: set<Student>

    constructor (assignments: seq<Assignment>, sections: seq<Section>, ghost members: set<Student>)
      ensures this.assignments == assignments && this.sections == sections
      ensures this.members == members && roster == null
    {
      this.assignments, this.sections, roster := assignments, sections, null;
      this.members := members;
    }

    ghost function Rosters(): (r: seq<seq<Student>>)
      reads sections
      ensures |r| == |sections|
    {
      seq(|sections|, i requires 0 <= i < |sections| reads sections => sections[i].nodes)
    }

    /** The sections' rosters are lists without a student in common. */
    ghost predicate Valid()
      reads this, sections, members
    {
      && (forall i | 0 <= i < |sections| :: sections[i].members <= members && sections[i].Valid())
      && (forall i, j | 0 <= i < j < |sections| ::
            sections[i] != sections[j] && sections[i].members !! sections[j].members)
    }
  }

  /** `nodes` is the NULL-terminated list that starts at `s`, threaded on next. */
  ghost predicate NextList(s: Student?, nodes: seq<Student>)
    reads nodes`next
  {
    s == At(nodes, 0) && forall i {:trigger nodes[i].next} | 0 <= i < |nodes| :: nodes[i].next == At(nodes, i + 1)
  }

  /** The same, threaded on cnext. */
  ghost predicate CNextList(s: Student?, nodes: seq<Student>)
    reads nodes`cnext
  {
    s == At(nodes, 0) && forall i {:trigger nodes[i].cnext} | 0 <= i < |nodes| :: nodes[i].cnext == At(nodes, i + 1)
  }

  /** The same for either link field. */
  ghost predicate Chain(s: Student?, link: Link, nodes: seq<Student>)
    reads nodes
  {
    if link.Next? then NextList(s, nodes) else CNextList(s, nodes)
  }

  /** The i-th node of a list, NULL past its end. */
  ghost function At(nodes: seq<Student>, i: nat): (r: Student?)
  {
    if i < |nodes| then nodes[i] else null
  }
}
