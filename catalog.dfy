/**
  The fixed question catalog of the assessment page: four named sections and
  eleven questions, each tagged with the lower-case name of its section.
  The questions of a section are found by filtering the catalog on that tag.
 */
module Catalog {

  /**
    A catalog entry; `options` holds the value stored when each option is
    picked, in display order. `kind` is the source's `type` field (a reserved word here).
    The question text and the option labels are display text: they live in
    `Wording`, keyed by the question's id, so that proofs about the catalog's
    shape do not carry them.
   */
  datatype Question = Question(
    id: string,
    category: string,
    kind: string,
    options: seq<string>,
    section: string)

  /** The text shown for a question and, in option order, for its options. */
  datatype Text = Text(prompt: string, labels: seq<string>)

  /** The display names of the sections, in their fixed order. */
  const SectionNames: seq<string> := ["Introduction", "Psychometric", "Technical", "WISCAR"]

  /** ASCII lower-casing of one character; every other character is kept. */
  function LowerChar(c: char): char
  {
    if 'A' <= c <= 'Z' then (c as int + 32) as char else c
  }

  /** `toLowerCase` on the ASCII section names. */
  function Lower(s: string): string
  {
    seq(|s|, i requires 0 <= i < |s| => LowerChar(s[i]))
  }

  /** The tag that the questions of section `i` carry; "" past the last section. */
  function SectionTag(i: nat): string
  {
    if i < |SectionNames| then Lower(SectionNames[i]) else ""
  }

  const Questions: seq<Question> := [
    Question("intro_1", "career_interest", "understanding",
      [ "expert",
        "intermediate",
        "beginner",
        "novice" ],
      "introduction"),
    Question("intro_2", "motivation", "interest",
      [ "problem_solving",
        "protection",
        "continuous_learning",
        "ethical_hacking" ],
      "introduction"),
    Question("psych_1", "personality", "conscientiousness",
      [ "detailed_plan",
        "flexible_approach",
        "dive_in",
        "research_first" ],
      "psychometric"),
    Question("psych_2", "stress_tolerance", "resilience",
      [ "stay_calm",
        "get_energized",
        "seek_help",
        "prioritize" ],
      "psychometric"),
    Question("psych_3", "curiosity", "learning_drive",
      [ "eager_explore",
        "cautious_research",
        "wait_proven",
        "learn_needed" ],
      "psychometric"),
    Question("tech_1", "networking", "knowledge",
      [ "mqtt",
        "http",
        "ftp",
        "smtp" ],
      "technical"),
    Question("tech_2", "security", "concepts",
      [ "easy_access",
        "performance",
        "battery_life",
        "compatibility" ],
      "technical"),
    Question("tech_3", "encryption", "application",
      [ "data_protection",
        "device_authentication",
        "network_routing",
        "power_management" ],
      "technical"),
    Question("wiscar_will", "will", "persistence",
      [ "persist_enjoy",
        "persist_duty",
        "seek_help_continue",
        "prefer_switch" ],
      "wiscar"),
    Question("wiscar_interest", "interest", "engagement",
      [ "penetration_testing",
        "firmware_analysis",
        "incident_response",
        "policy_development" ],
      "wiscar"),
    Question("wiscar_skill", "skill", "current_ability",
      [ "advanced",
        "intermediate",
        "beginner",
        "none" ],
      "wiscar")
  ]

  /** The display text of every catalog question, by id. */
  const Wording: map<string, Text> := map[
    "intro_1" := Text("How familiar are you with IoT (Internet of Things) devices and systems?",
      [ "Very familiar - I work with IoT systems regularly",
        "Moderately familiar - I understand the basics",
        "Somewhat familiar - I've heard about it",
        "Not familiar - This is new to me" ]),
    "intro_2" := Text("What interests you most about cybersecurity?",
      [ "Solving complex technical puzzles",
        "Protecting people and organizations from threats",
        "Staying ahead of evolving threats",
        "Ethical hacking and penetration testing" ]),
    "psych_1" := Text("When working on a complex project, I prefer to:",
      [ "Create a detailed plan and follow it systematically",
        "Start with a rough plan and adapt as I go",
        "Dive in immediately and figure it out along the way",
        "Research extensively before starting any work" ]),
    "psych_2" := Text("When facing a security incident under pressure, I typically:",
      [ "Remain calm and work through the problem methodically",
        "Feel energized and motivated by the challenge",
        "Quickly involve team members and delegate tasks",
        "Focus on the most critical issues first" ]),
    "psych_3" := Text("How do you typically respond to new technologies or security threats?",
      [ "I'm eager to explore and understand them immediately",
        "I research carefully before engaging with them",
        "I wait until they're proven and well-documented",
        "I learn about them only when necessary for my work" ]),
    "tech_1" := Text("Which protocol is commonly used for lightweight communication in IoT devices?",
      [ "MQTT (Message Queuing Telemetry Transport)",
        "HTTP (Hypertext Transfer Protocol)",
        "FTP (File Transfer Protocol)",
        "SMTP (Simple Mail Transfer Protocol)" ]),
    "tech_2" := Text("What is the primary security concern with default passwords on IoT devices?",
      [ "They provide easy unauthorized access to attackers",
        "They slow down device performance",
        "They drain battery life faster",
        "They cause compatibility issues with networks" ]),
    "tech_3" := Text("In IoT security, what is the purpose of implementing AES encryption?",
      [ "To protect data confidentiality during transmission and storage",
        "To authenticate devices on the network",
        "To improve network routing efficiency",
        "To optimize power consumption" ]),
    "wiscar_will" := Text("When debugging a complex IoT security vulnerability that takes weeks to resolve, I:",
      [ "Persist with determination and actually enjoy the challenge",
        "Continue working on it because it's my responsibility",
        "Seek help from others but continue my efforts",
        "Prefer to switch to other tasks when possible" ]),
    "wiscar_interest" := Text("Which IoT security activity would you find most engaging?",
      [ "Conducting penetration tests on IoT networks",
        "Analyzing firmware for security vulnerabilities",
        "Responding to IoT security incidents",
        "Developing security policies and procedures" ]),
    "wiscar_skill" := Text("How would you rate your current programming skills?",
      [ "Advanced - I can code complex applications in multiple languages",
        "Intermediate - I'm comfortable with basic programming tasks",
        "Beginner - I understand basics but need more practice",
        "No programming experience" ])
  ]

  /** The questions of `qs` whose section is `tag`, in their order in `qs`. */
  function Filter(qs: seq<Question>, tag: string): (r: seq<Question>)
    ensures |r| <= |qs|
  {
    if qs == [] then []
    else if qs[0].section == tag then [qs[0]] + Filter(qs[1..], tag)
    else Filter(qs[1..], tag)
  }

  /** The filter keeps exactly the questions carrying the tag. */
  lemma {:induction false} FilterMembers(qs: seq<Question>, tag: string)
    ensures forall q :: q in Filter(qs, tag) <==> q in qs && q.section == tag
  {
    if qs != [] {
      FilterMembers(qs[1..], tag);
      assert qs == [qs[0]] + qs[1..];
    }
  }

  /** The questions shown in section `i`; empty for an index past the last section. */
  function SectionQuestions(i: nat): seq<Question>
  {
    Filter(Questions, SectionTag(i))
  }

  /** The tags of the four sections are the tags the questions carry. */
  lemma SectionTags()
    ensures SectionTag(0) == "introduction"
    ensures SectionTag(1) == "psychometric"
    ensures SectionTag(2) == "technical"
    ensures SectionTag(3) == "wiscar"
  {
    assert SectionNames[0] == "Introduction";
    assert SectionNames[1] == "Psychometric";
    assert SectionNames[2] == "Technical";
    assert SectionNames[3] == "WISCAR";
  }

  /** Filtering a concatenation filters each part and keeps the parts in order. */
  lemma {:induction false} FilterAppend(a: seq<Question>, b: seq<Question>, tag: string)
    ensures Filter(a + b, tag) == Filter(a, tag) + Filter(b, tag)
  {
    if a == [] {
      assert a + b == b;
    } else {
      assert (a + b)[1..] == a[1..] + b;
      FilterAppend(a[1..], b, tag);
    }
  }

  /** A run of questions all tagged `tag` survives the filter whole and in order. */
  lemma {:induction false} FilterKeepsAll(qs: seq<Question>, tag: string)
    requires forall i :: 0 <= i < |qs| ==> qs[i].section == tag
    ensures Filter(qs, tag) == qs
  {
    if qs != [] {
      FilterKeepsAll(qs[1..], tag);
    }
  }

  /** A run of questions none of which is tagged `tag` is filtered away. */
  lemma {:induction false} FilterDropsAll(qs: seq<Question>, tag: string)
    requires forall i :: 0 <= i < |qs| ==> qs[i].section != tag
    ensures Filter(qs, tag) == []
  {
    if qs != [] {
      FilterDropsAll(qs[1..], tag);
    }
  }

  /** Filtering on a tag that exactly the run `qs[lo..hi]` carries yields that run. */
  lemma FilterRun(qs: seq<Question>, lo: nat, hi: nat, tag: string)
    requires lo <= hi <= |qs|
    requires forall k :: 0 <= k < lo ==> qs[k].section != tag
    requires forall k :: lo <= k < hi ==> qs[k].section == tag
    requires forall k :: hi <= k < |qs| ==> qs[k].section != tag
    ensures Filter(qs, tag) == qs[lo..hi]
  {
    var before, run, after := qs[..lo], qs[lo..hi], qs[hi..];
    assert qs == before + run + after;
    FilterDropsAll(before, tag);
    FilterKeepsAll(run, tag);
    FilterDropsAll(after, tag);
    FilterAppend(before + run, after, tag);
    FilterAppend(before, run, tag);
  }

  /** The section tag of every catalog entry, by position. */
  lemma QuestionSections()
    ensures |Questions| == 11
    ensures forall k :: 0 <= k < 2 ==> Questions[k].section == "introduction"
    ensures forall k :: 2 <= k < 5 ==> Questions[k].section == "psychometric"
    ensures forall k :: 5 <= k < 8 ==> Questions[k].section == "technical"
    ensures forall k :: 8 <= k < 11 ==> Questions[k].section == "wiscar"
  {
  }

  /** Where each section's run of questions starts in the catalog; the last entry is the catalog size. */
  const Bounds: seq<nat> := [0, 2, 5, 8, 11]

  lemma IntroductionRun()
    ensures SectionQuestions(0) == Questions[Bounds[0]..Bounds[1]]
  {
    SectionTags();
    QuestionSections();
    FilterRun(Questions, 0, 2, "introduction");
  }

  lemma PsychometricRun()
    ensures SectionQuestions(1) == Questions[Bounds[1]..Bounds[2]]
  {
    SectionTags();
    QuestionSections();
    FilterRun(Questions, 2, 5, "psychometric");
  }

  lemma TechnicalRun()
    ensures SectionQuestions(2) == Questions[Bounds[2]..Bounds[3]]
  {
    SectionTags();
    QuestionSections();
    FilterRun(Questions, 5, 8, "technical");
  }

  lemma WiscarRun()
    ensures SectionQuestions(3) == Questions[Bounds[3]..Bounds[4]]
  {
    SectionTags();
    QuestionSections();
    FilterRun(Questions, 8, 11, "wiscar");
  }

  /**
    The catalog is four consecutive runs, one per section: filtering on the tag
    of section `i` gives back exactly `Questions[Bounds[i]..Bounds[i + 1]]`, in
    declaration order.
   */
  lemma SectionRun(i: nat)
    requires i < 4
    ensures SectionQuestions(i) == Questions[Bounds[i]..Bounds[i + 1]]
  {
    if i == 0 {
      IntroductionRun();
    } else if i == 1 {
      PsychometricRun();
    } else if i == 2 {
      TechnicalRun();
    } else {
      WiscarRun();
    }
  }

  /** Every section has at least one question, and the sections together cover the catalog. */
  lemma SectionSizes(i: nat)
    requires i < |SectionNames|
    ensures |SectionQuestions(i)| == Bounds[i + 1] - Bounds[i] >= 1
    ensures Bounds[i + 1] <= Bounds[|SectionNames|] == |Questions|
  {
    SectionRun(i);
  }

  /** Past the last section the tag is "", which no question carries: no questions. */
  lemma PastLastSection(i: nat)
    requires i >= |SectionNames|
    ensures SectionQuestions(i) == []
  {
    QuestionSections();
    FilterDropsAll(Questions, "");
  }

  /** No two entries of `qs` share an id. */
  predicate DistinctIds(qs: seq<Question>)
  {
    forall i, j :: 0 <= i < j < |qs| ==> qs[i].id != qs[j].id
  }

  /** The catalog's ids are pairwise distinct, so answers never collide. */
  lemma IdsDistinct()
    ensures DistinctIds(Questions)
  {
    forall i, j | 0 <= i < j < |Questions|
      ensures Questions[i].id != Questions[j].id
    {
      var a, b := Questions[i].id, Questions[j].id;
      assert a[0] != b[0] || |a| != |b| || a[|a| - 1] != b[|b| - 1];
    }
  }

  /** Every question offers at least two options, and no option value is empty. */
  lemma OptionsWellFormed()
    ensures forall i :: 0 <= i < |Questions| ==> |Questions[i].options| >= 2
    ensures forall i, k :: 0 <= i < |Questions| && 0 <= k < |Questions[i].options| ==> Questions[i].options[k] != ""
  {
  }

  /** The ids of a list of questions. */
  function Ids(qs: seq<Question>): set<string>
  {
    if qs == [] then {} else {qs[0].id} + Ids(qs[1..])
  }

  /** A string is an id of `qs` exactly when some entry of `qs` carries it. */
  lemma {:induction false} IdsOf(qs: seq<Question>)
    ensures forall i :: 0 <= i < |qs| ==> qs[i].id in Ids(qs)
    ensures forall k :: k in Ids(qs) ==> exists i :: 0 <= i < |qs| && qs[i].id == k
  {
    if qs != [] {
      IdsOf(qs[1..]);
      forall i | 1 <= i < |qs|
        ensures qs[i].id in Ids(qs)
      {
        assert qs[i] == qs[1..][i - 1];
      }
      forall k | k in Ids(qs)
        ensures exists i :: 0 <= i < |qs| && qs[i].id == k
      {
        if k != qs[0].id {
          var j :| 0 <= j < |qs[1..]| && qs[1..][j].id == k;
          assert qs[j + 1].id == k;
        }
      }
    }
  }

  /** Pairwise-distinct ids: one id per entry. */
  lemma {:induction false} IdsCount(qs: seq<Question>)
    requires DistinctIds(qs)
    ensures |Ids(qs)| == |qs|
  {
    if qs != [] {
      IdsCount(qs[1..]);
      IdsOf(qs[1..]);
    }
  }

  /** The catalog has eleven distinct ids. */
  lemma CatalogIds()
    ensures |Ids(Questions)| == |Questions| == 11
    ensures forall i :: 0 <= i < |Questions| ==> Questions[i].id in Ids(Questions)
    ensures forall k :: k in Ids(Questions) ==> exists i :: 0 <= i < |Questions| && Questions[i].id == k
  {
    IdsDistinct();
    IdsCount(Questions);
    IdsOf(Questions);
  }
}
